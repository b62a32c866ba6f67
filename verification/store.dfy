/** The replicated store: the mutation operations every screen calls. Each applies its change
    to the local copy at once and says what goes on the channel: the host broadcasts the whole
    new state, an online guest sends a request carrying only its change, and a single-device
    game sends nothing. Broadcast delays are modelled as immediate emission. */
module Store {
  import opened Wrappers
  import opened Arith
  import opened Model

  /** `syncState`: the full state, when the channel can carry it. */
  function Broadcast(ses: Session, s: GameState): seq<Event>
  {
    if CanSend(ses) then [StateUpdate(FullSnapshot(s))] else []
  }

  /** `sendEvent`: one event, when the channel can carry it. */
  function Send(ses: Session, e: Event): seq<Event>
  {
    if CanSend(ses) then [e] else []
  }

  /** The broadcast only an online host makes. */
  function HostBroadcast(ses: Session, s: GameState): seq<Event>
  {
    if ses.mode == Online && ses.isHost then Broadcast(ses, s) else []
  }

  /** Every state broadcast in `out` carries exactly the state `out` ends in. */
  predicate BroadcastsOwnState(out: Step) {
    forall i :: 0 <= i < |out.events| && out.events[i].StateUpdate? ==>
      out.events[i].snapshot == FullSnapshot(out.state)
  }

  /** No event in the list is a state broadcast. */
  predicate NoStateBroadcast(events: seq<Event>) {
    forall i :: 0 <= i < |events| ==> !events[i].StateUpdate?
  }

  /** Company slot of round `n` for a roster of `count` players, as the round constructor
      computes it: `(n - 1) % (count || 1)` with JavaScript's remainder. */
  function RotationIndex(n: int, count: nat): (k: int)
    ensures n >= 1 && count > 0 ==> 0 <= k < count && k == (n - 1) % count
    ensures n >= 1 && count == 0 ==> k == 0
    ensures count > 0 && 1 - count < n < 1 ==> k == n - 1
  {
    JsRem(n - 1, if count == 0 then 1 else count)
  }

  /** `setPlayers`. */
  function SetPlayers(ses: Session, s: GameState, players: seq<Player>): (out: Step)
    ensures out.state.players == players
    ensures out.state.rounds == s.rounds && out.state.currentRound == s.currentRound && out.state.phase == s.phase
    ensures out.events == HostBroadcast(ses, out.state)
  {
    var s' := s.(players := players);
    Step(s', HostBroadcast(ses, s'))
  }

  /** `addRound`: appends `round` as the new current round. The company is recomputed from the
      live roster, whatever the caller put in the company fields, and the topic flags and the
      roulette start afresh. */
  function AddRound(ses: Session, s: GameState, round: Round): (out: Step)
    ensures |out.state.rounds| == |s.rounds| + 1 && out.state.rounds[..|s.rounds|] == s.rounds
    ensures var r := out.state.rounds[|s.rounds|];
      && r.roundNumber == round.roundNumber
      && r.companyIndex == RotationIndex(round.roundNumber, |s.players|)
      && (0 <= r.companyIndex < |s.players| && s.players[r.companyIndex].id != "" ==>
            r.companyId == s.players[r.companyIndex].id)
      && (0 <= r.companyIndex < |s.players| && s.players[r.companyIndex].name != "" ==>
            r.companyName == s.players[r.companyIndex].name)
      && !r.topicConfirmed && !r.graphCompleted && r.roulette == IdleRoulette
      && r.topic == round.topic && r.anchorPoints == round.anchorPoints && r.investments == round.investments
      && r.readyPlayers == round.readyPlayers && r.completed == round.completed
    ensures out.state.currentRound == round.roundNumber
    ensures out.state.players == s.players && out.state.phase == s.phase
    ensures out.events == HostBroadcast(ses, out.state)
  {
    var idx := RotationIndex(round.roundNumber, |s.players|);
    var company := if 0 <= idx < |s.players| then Some(s.players[idx]) else None;
    var r := round.(
      companyId := if company.Some? && company.value.id != "" then company.value.id else round.companyId,
      companyName := if company.Some? && company.value.name != "" then company.value.name else round.companyName,
      companyIndex := idx,
      topicConfirmed := false,
      graphCompleted := false,
      roulette := IdleRoulette);
    var s' := s.(rounds := s.rounds + [r], currentRound := round.roundNumber);
    Step(s', HostBroadcast(ses, s'))
  }

  /** `updateRound`: every round numbered `n` takes the patch, locally, whatever the role. The
      host then broadcasts; an online guest sends the patch alone as a request. */
  function UpdateRound(ses: Session, s: GameState, n: int, p: RoundPatch): (out: Step)
    ensures out.state.rounds == PatchRounds(s.rounds, n, p)
    ensures out.state.players == s.players && out.state.currentRound == s.currentRound && out.state.phase == s.phase
    ensures ses.mode == Local ==> out.events == []
    ensures ses.mode == Online && ses.isHost ==> out.events == Broadcast(ses, out.state)
    ensures ses.mode == Online && !ses.isHost ==> out.events == Send(ses, RoundUpdateRequest(n, p))
  {
    var s' := s.(rounds := PatchRounds(s.rounds, n, p));
    var events :=
      if ses.mode == Online then
        if ses.isHost then Broadcast(ses, s') else Send(ses, RoundUpdateRequest(n, p))
      else [];
    Step(s', events)
  }

  /** `updatePlayersAndRounds`: replaces the roster and patches the rounds numbered `n` in one
      step, with a single broadcast from the host. */
  function UpdatePlayersAndRounds(ses: Session, s: GameState, players: seq<Player>, n: int, p: RoundPatch): (out: Step)
    ensures out.state.players == players
    ensures out.state.rounds == PatchRounds(s.rounds, n, p)
    ensures out.state.currentRound == s.currentRound && out.state.phase == s.phase
    ensures out.events == HostBroadcast(ses, out.state)
  {
    var s' := s.(players := players, rounds := PatchRounds(s.rounds, n, p));
    Step(s', HostBroadcast(ses, s'))
  }

  /** Adds `delta` to the balance of every player whose id is `id`. */
  function AddPoints(players: seq<Player>, id: string, delta: int): (out: seq<Player>)
    ensures |out| == |players|
    ensures forall i :: 0 <= i < |out| ==>
      && out[i].id == players[i].id && out[i].name == players[i].name
      && out[i].age == players[i].age && out[i].color == players[i].color
      && out[i].currentPoint == players[i].currentPoint + (if players[i].id == id then delta else 0)
  {
    seq(|players|, i requires 0 <= i < |players| =>
      if players[i].id == id then players[i].(currentPoint := players[i].currentPoint + delta) else players[i])
  }

  /** `updatePlayerPoints`. */
  function UpdatePlayerPoints(ses: Session, s: GameState, id: string, delta: int): (out: Step)
    ensures out.state.players == AddPoints(s.players, id, delta)
    ensures out.state.rounds == s.rounds && out.state.currentRound == s.currentRound && out.state.phase == s.phase
    ensures out.events == HostBroadcast(ses, out.state)
  {
    var s' := s.(players := AddPoints(s.players, id, delta));
    Step(s', HostBroadcast(ses, s'))
  }

  /** `setPhase`: the host broadcasts; an online guest asks the host. */
  function SetPhase(ses: Session, s: GameState, phase: Phase): (out: Step)
    ensures out.state == s.(phase := phase)
    ensures ses.mode == Local ==> out.events == []
    ensures ses.mode == Online && ses.isHost ==> out.events == Broadcast(ses, out.state)
    ensures ses.mode == Online && !ses.isHost ==> out.events == Send(ses, PhaseUpdateRequest(phase))
  {
    var s' := s.(phase := phase);
    var events :=
      if ses.mode == Online then
        if ses.isHost then Broadcast(ses, s') else Send(ses, PhaseUpdateRequest(phase))
      else [];
    Step(s', events)
  }

  /** `advanceToNextRound`: appends `next`, points at it and returns to topic selection. It does
      nothing on an online guest, and nothing when a round with that number already exists. It
      keeps the caller's company fields as they are. */
  function AdvanceToNextRound(ses: Session, s: GameState, next: Round): (out: Step)
    ensures (ses.mode == Online && !ses.isHost) || HasRound(s.rounds, next.roundNumber) ==> out == Step(s, [])
    ensures !(ses.mode == Online && !ses.isHost) && !HasRound(s.rounds, next.roundNumber) ==>
      && out.state == GameState(s.players, next.roundNumber, s.rounds + [next], TopicSelection)
      && out.events == HostBroadcast(ses, out.state)
    ensures HasRound(out.state.rounds, next.roundNumber)
            || (ses.mode == Online && !ses.isHost && out.state == s)
  {
    if ses.mode == Online && !ses.isHost then Step(s, [])
    else if HasRound(s.rounds, next.roundNumber) then Step(s, [])
    else
      var s' := GameState(s.players, next.roundNumber, s.rounds + [next], TopicSelection);
      assert s'.rounds[|s.rounds|] == next;
      Step(s', HostBroadcast(ses, s'))
  }

  /** `updateRoundAndPhase`: a round patch and a phase change as one step; one broadcast from the
      host, one request from an online guest. */
  function UpdateRoundAndPhase(ses: Session, s: GameState, n: int, p: RoundPatch, phase: Phase): (out: Step)
    ensures out.state == s.(rounds := PatchRounds(s.rounds, n, p), phase := phase)
    ensures ses.mode == Local ==> out.events == []
    ensures ses.mode == Online && ses.isHost ==> out.events == Broadcast(ses, out.state)
    ensures ses.mode == Online && !ses.isHost ==> out.events == Send(ses, RoundAndPhaseUpdateRequest(n, p, phase))
  {
    var s' := s.(rounds := PatchRounds(s.rounds, n, p), phase := phase);
    var events :=
      if ses.mode == Online then
        if ses.isHost then Broadcast(ses, s') else Send(ses, RoundAndPhaseUpdateRequest(n, p, phase))
      else [];
    Step(s', events)
  }

  /** Two operations run one after the other: the second's state, both event lists in order. */
  function Then(first: Step, second: Step): Step
  {
    Step(second.state, first.events + second.events)
  }

  /** Advancing twice to the same round appends it once. */
  lemma AdvanceTwiceAppendsOnce(ses: Session, s: GameState, next: Round)
    ensures var once := AdvanceToNextRound(ses, s, next);
      && AdvanceToNextRound(ses, once.state, next) == Step(once.state, [])
      && |once.state.rounds| <= |s.rounds| + 1
  {
  }

  /** Advancing keeps round numbers unique: it never appends a number that is already there. */
  lemma AdvanceKeepsRoundNumbersUnique(ses: Session, s: GameState, next: Round)
    requires RoundNumbersUnique(s.rounds)
    ensures RoundNumbersUnique(AdvanceToNextRound(ses, s, next).state.rounds)
  {
  }

  /** For a round numbered 1 to P on a roster of P players with non-empty ids, the company is
      player `(n - 1) mod P`, and the company fields the caller supplied play no part. */
  lemma AddRoundIgnoresCallerCompany(ses: Session, s: GameState, a: Round, b: Round)
    requires |s.players| > 0 && a.roundNumber >= 1
    requires forall i :: 0 <= i < |s.players| ==> s.players[i].id != "" && s.players[i].name != ""
    requires b == a.(companyId := b.companyId, companyName := b.companyName, companyIndex := b.companyIndex)
    ensures AddRound(ses, s, a) == AddRound(ses, s, b)
    ensures var r := AddRound(ses, s, a).state.rounds[|s.rounds|];
      r.companyId == s.players[(a.roundNumber - 1) % |s.players|].id
  {
    var ra := AddRound(ses, s, a).state.rounds[|s.rounds|];
    var rb := AddRound(ses, s, b).state.rounds[|s.rounds|];
    assert ra == rb;
    assert AddRound(ses, s, a).state.rounds == s.rounds + [ra];
    assert AddRound(ses, s, b).state.rounds == s.rounds + [rb];
  }

  /** Over rounds 1 to P on a roster of P players, no player is company twice. */
  lemma RotationVisitsEachOnce(m: int, n: int, count: nat)
    requires 1 <= m < n <= count
    ensures RotationIndex(m, count) != RotationIndex(n, count)
  {
    assert RotationIndex(m, count) == m - 1 by { SmallRem(m - 1, count); }
    assert RotationIndex(n, count) == n - 1 by { SmallRem(n - 1, count); }
  }

  lemma SmallRem(x: int, count: int)
    requires 0 <= x < count
    ensures x % count == x
  {
  }

  /** Every host-side store operation either sends nothing or broadcasts the state it ends in. */
  lemma HostBroadcastsItsOwnState(ses: Session, s: GameState, n: int, p: RoundPatch, phase: Phase, next: Round)
    ensures BroadcastsOwnState(UpdateRound(ses, s, n, p))
    ensures BroadcastsOwnState(SetPhase(ses, s, phase))
    ensures BroadcastsOwnState(UpdateRoundAndPhase(ses, s, n, p, phase))
    ensures BroadcastsOwnState(AdvanceToNextRound(ses, s, next))
    ensures BroadcastsOwnState(AddRound(ses, s, next))
  {
  }

  /** An online guest never broadcasts state through the store: it only sends requests. */
  lemma GuestSendsOnlyRequests(ses: Session, s: GameState, n: int, p: RoundPatch, phase: Phase, next: Round, players: seq<Player>)
    requires ses.mode == Online && !ses.isHost
    ensures NoStateBroadcast(UpdateRound(ses, s, n, p).events)
    ensures NoStateBroadcast(SetPhase(ses, s, phase).events)
    ensures NoStateBroadcast(UpdateRoundAndPhase(ses, s, n, p, phase).events)
    ensures AdvanceToNextRound(ses, s, next) == Step(s, [])
    ensures AddRound(ses, s, next).events == [] && SetPlayers(ses, s, players).events == []
  {
  }
}
