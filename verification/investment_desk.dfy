/** The investment screen: a wager is read from three text fields, checked in a fixed order, and
    then recorded. The host records its own wager directly, a guest sends it to the host, and on
    one device the investors take turns and the round's wagers are recorded when the last one
    has played. The host also moves the game on once every investor has a wager. */
module InvestmentDesk {
  import opened Wrappers
  import opened Model
  import opened Store
  import opened Roles
  import opened Protocol
  import opened Seqs

  /** A text field after trimming and `Math.floor(Number(...))`: empty, not a number, or a
      whole number. */
  datatype Field = Blank | NotANumber | Num(value: int)

  /** The three fields of the form. */
  datatype Entry = Entry(buyAge: Field, sellAge: Field, points: Field)

  /** The form's messages, in the order the checks run. */
  datatype InvestError = AgesMissing | AgesInvalid | PointsInvalid | OverBalance | AgeOutOfRange | SameAges

  /** A checked wager. */
  datatype Wager = Wager(buyAge: int, sellAge: int, points: int)

  /** The number `Number` reads from a field: an empty field reads as 0. */
  function Amount(f: Field): Option<int> {
    match f
    case Blank => Some(0)
    case NotANumber => None
    case Num(v) => Some(v)
  }

  /** The checks of a submission, given the investor's balance (`None` when the investor is
      unknown) and the company's age. A wager passes exactly when both ages are numbers in
      `[0, maxAge]` and differ, and the stake is a positive number no larger than the balance;
      otherwise the first failing check in the order ages present, ages numeric, stake positive,
      stake covered, ages in range, ages different names the error. */
  function Check(e: Entry, balance: Option<int>, maxAge: int): (r: Result<Wager, InvestError>)
    ensures r.Success? <==>
      && e.buyAge.Num? && e.sellAge.Num? && Amount(e.points).Some?
      && 0 < Amount(e.points).value && balance.Some? && Amount(e.points).value <= balance.value
      && 0 <= e.buyAge.value <= maxAge && 0 <= e.sellAge.value <= maxAge
      && e.buyAge.value != e.sellAge.value
    ensures r.Success? ==> r.value == Wager(e.buyAge.value, e.sellAge.value, Amount(e.points).value)
    ensures r == Failure(AgesMissing) <==> e.buyAge.Blank? || e.sellAge.Blank?
    ensures r == Failure(AgesInvalid) <==> !e.buyAge.Blank? && !e.sellAge.Blank? && (e.buyAge.NotANumber? || e.sellAge.NotANumber?)
    ensures r == Failure(PointsInvalid) <==> e.buyAge.Num? && e.sellAge.Num? && (Amount(e.points).None? || Amount(e.points).value <= 0)
    ensures r == Failure(OverBalance) <==>
      && e.buyAge.Num? && e.sellAge.Num? && Amount(e.points).Some? && Amount(e.points).value > 0
      && (balance.None? || Amount(e.points).value > balance.value)
    ensures r == Failure(AgeOutOfRange) <==>
      && e.buyAge.Num? && e.sellAge.Num? && Amount(e.points).Some? && Amount(e.points).value > 0
      && balance.Some? && Amount(e.points).value <= balance.value
      && !(0 <= e.buyAge.value <= maxAge && 0 <= e.sellAge.value <= maxAge)
    ensures r == Failure(SameAges) <==>
      && e.buyAge.Num? && e.sellAge.Num? && Amount(e.points).Some? && Amount(e.points).value > 0
      && balance.Some? && Amount(e.points).value <= balance.value
      && 0 <= e.buyAge.value <= maxAge && 0 <= e.sellAge.value <= maxAge
      && e.buyAge.value == e.sellAge.value
  {
    if e.buyAge.Blank? || e.sellAge.Blank? then Failure(AgesMissing)
    else if e.buyAge.NotANumber? || e.sellAge.NotANumber? then Failure(AgesInvalid)
    else
      var buy := e.buyAge.value;
      var sell := e.sellAge.value;
      match Amount(e.points)
      case None => Failure(PointsInvalid)
      case Some(points) =>
        if points <= 0 then Failure(PointsInvalid)
        else if balance.None? || points > balance.value then Failure(OverBalance)
        else if buy < 0 || buy > maxAge || sell < 0 || sell > maxAge then Failure(AgeOutOfRange)
        else if buy == sell then Failure(SameAges)
        else Success(Wager(buy, sell, points))
  }

  /** A short position is accepted: selling at an earlier age than buying is not an error. */
  lemma ShortPositionAccepted(balance: int, maxAge: int)
    requires maxAge >= 1 && balance >= 1
    ensures Check(Entry(Num(maxAge), Num(0), Num(1)), Some(balance), maxAge).Success?
  {
  }

  /** Local turn state: the wagers collected so far and whose turn it is. */
  datatype Ballot = Ballot(collected: seq<Investment>, index: nat)

  /** The turn state a new round starts with. */
  const NewBallot: Ballot := Ballot([], 0)

  /** The participant whose form this is: the session's player online, the investor whose turn
      it is on one device (none once the turns run past the list). */
  function Submitter(ses: Session, s: GameState, b: Ballot): Option<string> {
    if ses.mode == Online then Some(ses.playerId)
    else if b.index < |Investors(s)| then Some(Investors(s)[b.index].id)
    else None
  }

  /** The balance the stake is checked against. */
  function Balance(ses: Session, s: GameState, b: Ballot): Option<int> {
    match Submitter(ses, s, b)
    case None => None
    case Some(id) =>
      match FindPlayer(s.players, id)
      case None => None
      case Some(p) => Some(p.currentPoint)
  }

  function NewInvestment(id: string, w: Wager): Investment {
    Investment(id, w.buyAge, w.sellAge, w.points, None, None, None)
  }

  function WagersPatch(invs: seq<Investment>): RoundPatch {
    EmptyPatch.(investments := Some(invs))
  }

  /** A submission of the form. Without a current round nothing happens; a failed check only
      shows its message. Otherwise the wager is recorded: by the host as an upsert into the
      round, by a guest as a message to the host, and on one device into the turn list, which is
      written to the round together with the move to the reveal once the last investor has
      played. */
  function Submit(ses: Session, s: GameState, b: Ballot, e: Entry): (out: (Ballot, Step, Option<InvestError>))
    ensures CurrentRound(s).None? ==> out == (b, Step(s, []), None)
    ensures CurrentRound(s).Some? && Check(e, Balance(ses, s, b), MaxAge(s)).Failure? ==>
      out == (b, Step(s, []), Some(Check(e, Balance(ses, s, b), MaxAge(s)).error))
    ensures CurrentRound(s).Some? && Check(e, Balance(ses, s, b), MaxAge(s)).Success? ==>
      var r := CurrentRound(s).value;
      var inv := NewInvestment(Submitter(ses, s, b).value, Check(e, Balance(ses, s, b), MaxAge(s)).value);
      && out.2 == None
      && (ses.mode == Online && ses.isHost ==>
            out.0 == b && out.1 == UpdateRound(ses, s, s.currentRound, WagersPatch(Upsert(r.investments, inv))))
      && (ses.mode == Online && !ses.isHost ==>
            out.0 == b && out.1 == Step(s, Send(ses, InvestmentSubmit(inv, s.currentRound))))
      && (ses.mode == Local ==> out.0.collected == b.collected + [inv] && inv.investorId == Investors(s)[b.index].id)
      && (ses.mode == Local && b.index + 1 < |Investors(s)| ==> out.0.index == b.index + 1 && out.1 == Step(s, []))
      && (ses.mode == Local && b.index + 1 >= |Investors(s)| ==>
            out.0.index == b.index
            && out.1.state == s.(rounds := PatchRounds(s.rounds, s.currentRound, WagersPatch(b.collected + [inv])),
                                 phase := ResultsReveal)
            && out.1.events == [])
  {
    match CurrentRound(s)
    case None => (b, Step(s, []), None)
    case Some(r) =>
      match Check(e, Balance(ses, s, b), MaxAge(s))
      case Failure(err) => (b, Step(s, []), Some(err))
      case Success(w) =>
        var inv := NewInvestment(Submitter(ses, s, b).value, w);
        if ses.mode == Online then
          if ses.isHost then (b, UpdateRound(ses, s, r.roundNumber, WagersPatch(Upsert(r.investments, inv))), None)
          else (b, Step(s, Send(ses, InvestmentSubmit(inv, r.roundNumber))), None)
        else
          var collected := b.collected + [inv];
          if b.index < |Investors(s)| - 1 then (Ballot(collected, b.index + 1), Step(s, []), None)
          else
            var first := UpdateRound(ses, s, r.roundNumber, WagersPatch(collected));
            (Ballot(collected, b.index), Then(first, SetPhase(ses, first.state, ResultsReveal)), None)
  }

  /** A rejected submission changes nothing and sends nothing, whoever submits it. */
  lemma RejectedSubmissionIsSilent(ses: Session, s: GameState, b: Ballot, e: Entry)
    requires Submit(ses, s, b, e).2.Some?
    ensures Submit(ses, s, b, e).0 == b && Submit(ses, s, b, e).1 == Step(s, [])
  {
  }

  /** A guest's wager, once the host receives it, leaves the host's state exactly as the host's
      own submission of the same form for that player would. */
  lemma GuestWagerMatchesHostWager(guest: Session, host: Session, s: GameState, b: Ballot, e: Entry)
    requires guest.mode == Online && !guest.isHost && CanSend(guest)
    requires host.mode == Online && host.isHost && host.playerId == guest.playerId
    requires Submit(guest, s, b, e).2.None? && CurrentRound(s).Some?
    ensures |Submit(guest, s, b, e).1.events| == 1
    ensures Receive(host, s, Submit(guest, s, b, e).1.events[0]).state == Submit(host, s, b, e).1.state
  {
    var r := CurrentRound(s).value;
    assert Balance(guest, s, b) == Balance(host, s, b);
    var inv := NewInvestment(guest.playerId, Check(e, Balance(guest, s, b), MaxAge(s)).value);
    assert Submit(guest, s, b, e).1.events[0] == InvestmentSubmit(inv, s.currentRound);
    ReceiveInvestment(host, s, inv, s.currentRound);
    assert TargetRound(s, s.currentRound) == s.currentRound;
    assert FindRound(s.rounds, s.currentRound) == Some(r);
  }

  /** The host's move to the reveal once the round holds as many wagers as there are
      investors; it does nothing for anyone else or earlier. */
  function AutoAdvance(ses: Session, s: GameState): (out: Step)
    ensures !(ses.mode == Online && ses.isHost) ==> out == Step(s, [])
    ensures (ses.mode == Online && ses.isHost && CurrentRound(s).Some?
             && 0 < |Investors(s)| == |CurrentRound(s).value.investments|) ==> out == SetPhase(ses, s, ResultsReveal)
    ensures (CurrentRound(s).None? || |Investors(s)| == 0
             || |Investors(s)| != |CurrentRound(s).value.investments|) ==> out == Step(s, [])
  {
    if ses.mode == Online && ses.isHost then
      match CurrentRound(s)
      case None => Step(s, [])
      case Some(r) =>
        if |Investors(s)| > 0 && |r.investments| == |Investors(s)| then SetPhase(ses, s, ResultsReveal)
        else Step(s, [])
    else Step(s, [])
  }

  /** When the one investor still missing a wager sends it, the host records it and the reveal
      follows at once. */
  lemma LastWagerTriggersReveal(host: Session, s: GameState, inv: Investment)
    requires host.mode == Online && host.isHost
    requires CurrentRound(s).Some? && InvestorIndex(CurrentRound(s).value.investments, inv.investorId) == -1
    requires |CurrentRound(s).value.investments| + 1 == |Investors(s)|
    ensures var after := Receive(host, s, InvestmentSubmit(inv, s.currentRound)).state;
      AutoAdvance(host, after).state.phase == ResultsReveal
      && CurrentRound(after).Some? && inv in CurrentRound(after).value.investments
  {
    var r := CurrentRound(s).value;
    var invs := Upsert(r.investments, inv);
    ReceiveInvestment(host, s, inv, s.currentRound);
    var after := HostInvestment(host, s, inv, s.currentRound).state;
    assert TargetRound(s, s.currentRound) == s.currentRound;
    assert after == s.(rounds := SetInvestments(s.rounds, s.currentRound, invs));
    FindAfterPatch(s.rounds, s.currentRound, WagersPatch(invs));
    assert CurrentRound(after) == Some(Merge(r, WagersPatch(invs)));
    assert Investors(after) == Investors(s);
  }

  function WagerOwner(v: Investment): string {
    v.investorId
  }

  function PlayerId(p: Player): string {
    p.id
  }

  /** The host's count test is the same as every investor having a wager, as long as each wager
      is by an investor, no investor holds two and no two investors share an id. */
  lemma CountMeansEveryInvestorWagered(investors: seq<Player>, invs: seq<Investment>)
    requires PlayerIdsUnique(investors) && InvestorsUnique(invs)
    requires forall i :: 0 <= i < |invs| ==> HasPlayer(investors, invs[i].investorId)
    ensures |invs| == |investors| <==> forall j :: 0 <= j < |investors| ==> InvestorIndex(invs, investors[j].id) >= 0
  {
    DistinctImageSize(invs, WagerOwner);
    DistinctImageSize(investors, PlayerId);
    OwnersAreIds(investors, invs);
    FullCountMeansWagers(investors, invs);
    WagersMeanFullCount(investors, invs);
  }

  lemma FullCountMeansWagers(investors: seq<Player>, invs: seq<Investment>)
    requires Image(invs, WagerOwner) <= Image(investors, PlayerId)
    requires |Image(invs, WagerOwner)| == |invs| && |Image(investors, PlayerId)| == |investors|
    ensures |invs| == |investors| ==> forall j :: 0 <= j < |investors| ==> InvestorIndex(invs, investors[j].id) >= 0
  {
    if |invs| == |investors| {
      SubsetOfSameSize(Image(invs, WagerOwner), Image(investors, PlayerId));
      OwnedIdsMeanWagers(investors, invs);
    }
  }

  lemma WagersMeanFullCount(investors: seq<Player>, invs: seq<Investment>)
    requires Image(invs, WagerOwner) <= Image(investors, PlayerId)
    requires |Image(invs, WagerOwner)| == |invs| && |Image(investors, PlayerId)| == |investors|
    ensures (forall j :: 0 <= j < |investors| ==> InvestorIndex(invs, investors[j].id) >= 0) ==> |invs| == |investors|
  {
    if forall j :: 0 <= j < |investors| ==> InvestorIndex(invs, investors[j].id) >= 0 {
      WagersMeanOwnedIds(investors, invs);
      assert Image(invs, WagerOwner) == Image(investors, PlayerId);
    }
  }

  lemma OwnersAreIds(investors: seq<Player>, invs: seq<Investment>)
    requires forall i :: 0 <= i < |invs| ==> HasPlayer(investors, invs[i].investorId)
    ensures Image(invs, WagerOwner) <= Image(investors, PlayerId)
  {
    forall u | u in Image(invs, WagerOwner) ensures u in Image(investors, PlayerId) {
      var i :| 0 <= i < |invs| && WagerOwner(invs[i]) == u;
      var j :| 0 <= j < |investors| && investors[j].id == invs[i].investorId;
      assert PlayerId(investors[j]) == u;
    }
  }

  lemma OwnedIdsMeanWagers(investors: seq<Player>, invs: seq<Investment>)
    requires Image(investors, PlayerId) <= Image(invs, WagerOwner)
    ensures forall j :: 0 <= j < |investors| ==> InvestorIndex(invs, investors[j].id) >= 0
  {
    forall j | 0 <= j < |investors| ensures InvestorIndex(invs, investors[j].id) >= 0 {
      assert PlayerId(investors[j]) in Image(investors, PlayerId);
      OwnerHasWager(invs, investors[j].id);
    }
  }

  lemma OwnerHasWager(invs: seq<Investment>, id: string)
    requires id in Image(invs, WagerOwner)
    ensures InvestorIndex(invs, id) >= 0
  {
    var i :| 0 <= i < |invs| && WagerOwner(invs[i]) == id;
    assert invs[i].investorId == id;
  }

  lemma WagersMeanOwnedIds(investors: seq<Player>, invs: seq<Investment>)
    requires forall j :: 0 <= j < |investors| ==> InvestorIndex(invs, investors[j].id) >= 0
    ensures Image(investors, PlayerId) <= Image(invs, WagerOwner)
  {
    forall u | u in Image(investors, PlayerId) ensures u in Image(invs, WagerOwner) {
      var j :| 0 <= j < |investors| && PlayerId(investors[j]) == u;
      var k := InvestorIndex(invs, investors[j].id);
      assert WagerOwner(invs[k]) == u;
    }
  }

  /** On the investment screen, with distinct player ids and each wager by a distinct investor,
      the host opens the reveal exactly when there is an investor and every investor has a
      wager in the round. */
  lemma RevealExactlyWhenEveryInvestorWagered(ses: Session, s: GameState)
    requires ses.mode == Online && ses.isHost && s.phase == Investing && CurrentRound(s).Some?
    requires PlayerIdsUnique(s.players) && InvestorsUnique(CurrentRound(s).value.investments)
    requires var invs := CurrentRound(s).value.investments;
      forall i :: 0 <= i < |invs| ==> HasPlayer(Investors(s), invs[i].investorId)
    ensures var invs := CurrentRound(s).value.investments; var investors := Investors(s);
      AutoAdvance(ses, s).state.phase == ResultsReveal
      <==> |investors| > 0 && forall j :: 0 <= j < |investors| ==> InvestorIndex(invs, investors[j].id) >= 0
  {
    FilterOutKeepsIdsUnique(s.players, CurrentRound(s).value.companyId);
    CountMeansEveryInvestorWagered(Investors(s), CurrentRound(s).value.investments);
  }
}
