/** The replicated data model of the game: players, rounds and their parts, the game phase,
    the snapshot the host broadcasts, and the events that travel over a room's channel. */
module Model {
  import opened Wrappers
  import opened Seqs

  /** The fixed palette from which colours are handed out by join order. */
  const PlayerColors: seq<string> := [
    "#3B82F6", "#EF4444", "#10B981", "#F59E0B", "#8B5CF6", "#EC4899", "#14B8A6", "#F97316", "#06B6D4", "#84CC16",
    "#F43F5E", "#6366F1", "#A855F7", "#22D3EE", "#FDE047", "#FB923C", "#34D399", "#E11D48", "#7C3AED", "#0EA5E9"
  ]

  /** Balance every player starts with. */
  const InitialPoints: int := 10000

  /** Colour for the player who is `n`-th in join order: the palette cycled. */
  function ColorFor(n: nat): (c: string)
    ensures c in PlayerColors
    ensures c == PlayerColors[n % |PlayerColors|]
  {
    PlayerColors[n % |PlayerColors|]
  }

  datatype Player = Player(id: string, name: string, age: int, currentPoint: int, color: string)

  /** A control point of a company's life curve. */
  datatype AnchorPoint = AnchorPoint(age: int, score: int)

  /** Placeholder collection of a round; nothing in the game fills it. */
  datatype Question = Question(investorId: string, investorName: string, question: string, answer: Option<string>)

  /** A wager; the three scored fields stay absent until the round is scored. */
  datatype Investment = Investment(
    investorId: string, buyAge: int, sellAge: int, investmentPoints: int,
    buyScore: Option<int>, sellScore: Option<int>, pointsGained: Option<int>)

  /** Roulette animation state shared during topic selection. */
  datatype Roulette = Roulette(isSpinning: bool, displayTopic: string, finalTopic: Option<string>)

  /** The roulette at rest with nothing chosen. */
  const IdleRoulette: Roulette := Roulette(false, "", None)

  /** One round. `topicConfirmed` and `graphCompleted` read an absent flag as false and
      `readyPlayers` reads an absent list as empty, as every reader of the record does. */
  datatype Round = Round(
    roundNumber: int, companyId: string, companyIndex: int, companyName: string,
    topic: string, topicConfirmed: bool, anchorPoints: seq<AnchorPoint>, questions: seq<Question>,
    investments: seq<Investment>, completed: bool, graphCompleted: bool, timerValue: Option<int>,
    readyPlayers: seq<string>, roulette: Roulette)

  /** The game phases, in forward order (`Investing` is the source's 'investment'). */
  datatype Phase = Setup | TopicSelection | GraphCreation | Questions | Investing
                 | ResultsReveal | Results | RoundSummary | FinalResults

  /** The replicated state: what a snapshot carries. */
  datatype GameState = GameState(players: seq<Player>, currentRound: int, rounds: seq<Round>, phase: Phase)

  const InitialState: GameState := GameState([], 0, [], Setup)

  datatype Mode = Local | Online

  /** Per-participant context that is not replicated. `subscribed` says whether the room's
      channel has been joined. */
  datatype Session = Session(mode: Mode, roomId: string, playerId: string, isHost: bool, subscribed: bool)

  /** The channel carries a message only online, inside a room, once subscribed. */
  predicate CanSend(ses: Session) {
    ses.mode == Online && ses.roomId != "" && ses.subscribed
  }

  /** The participant that may force phase changes: everyone on a single device, else the host. */
  predicate CanControl(ses: Session) {
    ses.mode == Local || ses.isHost
  }

  /** A partial update of a round (`Partial<Round>`): the fields the game ever patches. */
  datatype RoundPatch = RoundPatch(
    topic: Option<string>, topicConfirmed: Option<bool>, anchorPoints: Option<seq<AnchorPoint>>,
    investments: Option<seq<Investment>>, completed: Option<bool>, graphCompleted: Option<bool>,
    timerValue: Option<int>, readyPlayers: Option<seq<string>>, roulette: Option<Roulette>)

  const EmptyPatch: RoundPatch := RoundPatch(None, None, None, None, None, None, None, None, None)

  /** A broadcast state; an absent field leaves the receiver's copy alone. */
  datatype Snapshot = Snapshot(
    players: Option<seq<Player>>, currentRound: Option<int>, rounds: Option<seq<Round>>, phase: Option<Phase>)

  /** The snapshot of every field of `s`, as the host sends it. */
  function FullSnapshot(s: GameState): Snapshot {
    Snapshot(Some(s.players), Some(s.currentRound), Some(s.rounds), Some(s.phase))
  }

  /** Channel events. A round number of 0 stands for an absent one. */
  datatype Event =
    | StateUpdate(snapshot: Snapshot)
    | PlayerJoin(player: Player)
    | RoundUpdateRequest(roundNumber: int, updates: RoundPatch)
    | PhaseUpdateRequest(phase: Phase)
    | RoundAndPhaseUpdateRequest(roundNumber: int, roundUpdates: RoundPatch, newPhase: Phase)
    | InvestmentSubmit(investment: Investment, roundNumber: int)
    | PlayerReadyNext(playerId: string, roundNumber: int)

  /** Result of an operation: the new state and the events it puts on the channel, in order. */
  datatype Step = Step(state: GameState, events: seq<Event>)

  /** Shallow merge `{ ...r, ...p }`. */
  function Merge(r: Round, p: RoundPatch): (m: Round)
    ensures m.roundNumber == r.roundNumber && m.companyId == r.companyId
    ensures m.companyIndex == r.companyIndex && m.companyName == r.companyName
    ensures m.questions == r.questions
  {
    r.(topic := p.topic.GetOr(r.topic),
       topicConfirmed := p.topicConfirmed.GetOr(r.topicConfirmed),
       anchorPoints := p.anchorPoints.GetOr(r.anchorPoints),
       investments := p.investments.GetOr(r.investments),
       completed := p.completed.GetOr(r.completed),
       graphCompleted := p.graphCompleted.GetOr(r.graphCompleted),
       timerValue := if p.timerValue.Some? then p.timerValue else r.timerValue,
       readyPlayers := p.readyPlayers.GetOr(r.readyPlayers),
       roulette := p.roulette.GetOr(r.roulette))
  }

  /** Applying the same patch twice is applying it once, and the empty patch changes nothing. */
  lemma MergeIdempotent(r: Round, p: RoundPatch)
    ensures Merge(Merge(r, p), p) == Merge(r, p)
    ensures Merge(r, EmptyPatch) == r
  {
  }

  /** `rounds.map(r => r.roundNumber === n ? { ...r, ...p } : r)`. */
  function PatchRounds(rounds: seq<Round>, n: int, p: RoundPatch): (out: seq<Round>)
    ensures |out| == |rounds|
    ensures forall i :: 0 <= i < |out| ==> out[i].roundNumber == rounds[i].roundNumber
    ensures forall i :: 0 <= i < |out| && rounds[i].roundNumber != n ==> out[i] == rounds[i]
    ensures forall i :: 0 <= i < |out| && rounds[i].roundNumber == n ==> out[i] == Merge(rounds[i], p)
  {
    seq(|rounds|, i requires 0 <= i < |rounds| => if rounds[i].roundNumber == n then Merge(rounds[i], p) else rounds[i])
  }

  /** Every field `p` sets, `q` sets too. */
  predicate Covers(q: RoundPatch, p: RoundPatch) {
    && (p.topic.Some? ==> q.topic.Some?)
    && (p.topicConfirmed.Some? ==> q.topicConfirmed.Some?)
    && (p.anchorPoints.Some? ==> q.anchorPoints.Some?)
    && (p.investments.Some? ==> q.investments.Some?)
    && (p.completed.Some? ==> q.completed.Some?)
    && (p.graphCompleted.Some? ==> q.graphCompleted.Some?)
    && (p.timerValue.Some? ==> q.timerValue.Some?)
    && (p.readyPlayers.Some? ==> q.readyPlayers.Some?)
    && (p.roulette.Some? ==> q.roulette.Some?)
  }

  lemma MergeOverridden(r: Round, p: RoundPatch, q: RoundPatch)
    requires Covers(q, p)
    ensures Merge(Merge(r, p), q) == Merge(r, q)
  {
    var a := Merge(Merge(r, p), q);
    var b := Merge(r, q);
    assert a.topic == b.topic && a.topicConfirmed == b.topicConfirmed && a.anchorPoints == b.anchorPoints;
    assert a.investments == b.investments && a.completed == b.completed && a.graphCompleted == b.graphCompleted;
    assert a.timerValue == b.timerValue && a.readyPlayers == b.readyPlayers && a.roulette == b.roulette;
  }

  /** A later patch that sets every field an earlier one set erases the earlier one. */
  lemma PatchOverridden(rounds: seq<Round>, n: int, p: RoundPatch, q: RoundPatch)
    requires Covers(q, p)
    ensures PatchRounds(PatchRounds(rounds, n, p), n, q) == PatchRounds(rounds, n, q)
  {
    var a := PatchRounds(PatchRounds(rounds, n, p), n, q);
    var b := PatchRounds(rounds, n, q);
    forall i | 0 <= i < |rounds| ensures a[i] == b[i] {
      if rounds[i].roundNumber == n {
        MergeOverridden(rounds[i], p, q);
      }
    }
  }

  /** Position of the first round numbered `n`, or -1. */
  function RoundIndex(rounds: seq<Round>, n: int): (k: int)
    ensures -1 <= k < |rounds|
    ensures k >= 0 ==> rounds[k].roundNumber == n && forall j :: 0 <= j < k ==> rounds[j].roundNumber != n
    ensures k == -1 <==> forall j :: 0 <= j < |rounds| ==> rounds[j].roundNumber != n
  {
    FirstIndex(rounds, (r: Round) => r.roundNumber == n)
  }

  /** The first round numbered `n` (`rounds.find(r => r.roundNumber === n)`). */
  function FindRound(rounds: seq<Round>, n: int): (r: Option<Round>)
    ensures r.Some? <==> exists j :: 0 <= j < |rounds| && rounds[j].roundNumber == n
    ensures r.Some? ==> r.value.roundNumber == n && r.value in rounds
  {
    var k := RoundIndex(rounds, n);
    if k == -1 then None else Some(rounds[k])
  }

  /** The round the round counter designates (`getCurrentRound`). */
  function CurrentRound(s: GameState): (r: Option<Round>)
    ensures r.Some? ==> r.value.roundNumber == s.currentRound && r.value in s.rounds
  {
    FindRound(s.rounds, s.currentRound)
  }

  /** After patching the rounds numbered `n`, the first round numbered `n` is the patched one. */
  lemma FindAfterPatch(rounds: seq<Round>, n: int, p: RoundPatch)
    ensures FindRound(PatchRounds(rounds, n, p), n) ==
            (match FindRound(rounds, n) case None => None case Some(r) => Some(Merge(r, p)))
  {
    var out := PatchRounds(rounds, n, p);
    assert RoundIndex(out, n) == RoundIndex(rounds, n);
  }

  /** Patching other rounds does not change which round is found for `m`. */
  lemma FindAfterOtherPatch(rounds: seq<Round>, n: int, m: int, p: RoundPatch)
    requires n != m
    ensures FindRound(PatchRounds(rounds, n, p), m) == FindRound(rounds, m)
  {
    var out := PatchRounds(rounds, n, p);
    assert RoundIndex(out, m) == RoundIndex(rounds, m);
  }

  /** A round appended under a number no earlier round has is the one found for that number. */
  lemma FindAppended(rounds: seq<Round>, r: Round)
    requires forall j :: 0 <= j < |rounds| ==> rounds[j].roundNumber != r.roundNumber
    ensures FindRound(rounds + [r], r.roundNumber) == Some(r)
  {
    var out := rounds + [r];
    assert forall j :: 0 <= j < |rounds| ==> out[j].roundNumber != r.roundNumber;
    assert out[|rounds|] == r;
    assert RoundIndex(out, r.roundNumber) == |rounds|;
  }

  /** True when a round with number `n` exists (`rounds.some(r => r.roundNumber === n)`). */
  predicate HasRound(rounds: seq<Round>, n: int) {
    exists j :: 0 <= j < |rounds| && rounds[j].roundNumber == n
  }

  /** No two rounds share a number. */
  predicate RoundNumbersUnique(rounds: seq<Round>) {
    forall i, j :: 0 <= i < j < |rounds| ==> rounds[i].roundNumber != rounds[j].roundNumber
  }

  /** No two players share an id. */
  predicate PlayerIdsUnique(players: seq<Player>) {
    forall i, j :: 0 <= i < j < |players| ==> players[i].id != players[j].id
  }

  /** True when a player with id `id` is on the roster. */
  predicate HasPlayer(players: seq<Player>, id: string) {
    exists j :: 0 <= j < |players| && players[j].id == id
  }

  /** The first player with id `id` (`players.find(p => p.id === id)`). */
  function FindPlayer(players: seq<Player>, id: string): (r: Option<Player>)
    ensures r.Some? <==> HasPlayer(players, id)
    ensures r.Some? ==> r.value.id == id && r.value in players
  {
    var k := FirstIndex(players, (p: Player) => p.id == id);
    if k == -1 then None else Some(players[k])
  }

  /** No investor has two investments. */
  predicate InvestorsUnique(invs: seq<Investment>) {
    forall i, j :: 0 <= i < j < |invs| ==> invs[i].investorId != invs[j].investorId
  }

  /** Position of the first investment by `id`, or -1. */
  function InvestorIndex(invs: seq<Investment>, id: string): (k: int)
    ensures -1 <= k < |invs|
    ensures k >= 0 ==> invs[k].investorId == id && forall j :: 0 <= j < k ==> invs[j].investorId != id
    ensures k == -1 <==> forall j :: 0 <= j < |invs| ==> invs[j].investorId != id
  {
    FirstIndex(invs, (i: Investment) => i.investorId == id)
  }

  /** Inserts or replaces the investment of `inv.investorId`: an existing entry is overwritten
      in place, otherwise `inv` is appended. */
  function Upsert(invs: seq<Investment>, inv: Investment): (out: seq<Investment>)
    ensures inv in out
    ensures InvestorIndex(invs, inv.investorId) >= 0 ==> |out| == |invs|
    ensures InvestorIndex(invs, inv.investorId) == -1 ==> |out| == |invs| + 1 && out[..|invs|] == invs
    ensures forall j :: 0 <= j < |invs| && invs[j].investorId != inv.investorId ==> out[j] == invs[j]
    ensures InvestorsUnique(invs) ==> InvestorsUnique(out)
  {
    var k := InvestorIndex(invs, inv.investorId);
    if k >= 0 then
      assert invs[k := inv][k] == inv;
      invs[k := inv]
    else invs + [inv]
  }

  /** With one entry per investor, the investor's entry after an upsert is the new one, and it
      is the only entry for that investor. */
  lemma UpsertSingleEntry(invs: seq<Investment>, inv: Investment)
    requires InvestorsUnique(invs)
    ensures forall j :: 0 <= j < |Upsert(invs, inv)| && Upsert(invs, inv)[j].investorId == inv.investorId
              ==> Upsert(invs, inv)[j] == inv
  {
  }

  /** Two submissions by the same investor leave the state the second alone would. */
  lemma UpsertTwiceKeepsSecond(invs: seq<Investment>, a: Investment, b: Investment)
    requires a.investorId == b.investorId
    ensures Upsert(Upsert(invs, a), b) == Upsert(invs, b)
  {
    var k := InvestorIndex(invs, a.investorId);
    var once := Upsert(invs, a);
    if k == -1 {
      assert InvestorIndex(once, a.investorId) == |invs|;
    } else {
      assert once[k].investorId == a.investorId;
      assert forall j :: 0 <= j < k ==> once[j] == invs[j];
      assert InvestorIndex(once, a.investorId) == k;
    }
  }
}
