/** The reconciliation protocol: what a participant does with an event from the room's channel.
    Guests only ever adopt state broadcasts; the host applies each request to its own copy and
    broadcasts the whole result. Each handler is one atomic step. */
module Protocol {
  import opened Wrappers
  import opened Seqs
  import opened Model
  import opened Store

  /** A guest's handling of a state broadcast: each field the snapshot carries replaces the local
      one wholesale; there is no merge and no comparison of ages of snapshots. */
  function ApplySnapshot(s: GameState, snap: Snapshot): (out: GameState)
    ensures snap.players.Some? ==> out.players == snap.players.value
    ensures snap.players.None? ==> out.players == s.players
    ensures snap.currentRound.Some? ==> out.currentRound == snap.currentRound.value
    ensures snap.currentRound.None? ==> out.currentRound == s.currentRound
    ensures snap.rounds.Some? ==> out.rounds == snap.rounds.value
    ensures snap.rounds.None? ==> out.rounds == s.rounds
    ensures snap.phase.Some? ==> out.phase == snap.phase.value
    ensures snap.phase.None? ==> out.phase == s.phase
  {
    GameState(snap.players.GetOr(s.players), snap.currentRound.GetOr(s.currentRound),
              snap.rounds.GetOr(s.rounds), snap.phase.GetOr(s.phase))
  }

  /** The round a guest request designates: its own number, or the current round when absent. */
  function TargetRound(s: GameState, n: int): (t: int)
    ensures n != 0 ==> t == n
    ensures n == 0 ==> t == s.currentRound
  {
    if n != 0 then n else s.currentRound
  }

  /** Replaces the investments of every round numbered `n`. */
  function SetInvestments(rounds: seq<Round>, n: int, invs: seq<Investment>): (out: seq<Round>)
    ensures |out| == |rounds|
    ensures forall i :: 0 <= i < |out| && rounds[i].roundNumber == n ==> out[i] == rounds[i].(investments := invs)
    ensures forall i :: 0 <= i < |out| && rounds[i].roundNumber != n ==> out[i] == rounds[i]
  {
    PatchRounds(rounds, n, EmptyPatch.(investments := Some(invs)))
  }

  /** The host's handling of `player_join`. */
  function HostJoin(ses: Session, s: GameState, p: Player): (out: Step)
    ensures p.id == "" ==> out == Step(s, [])
    ensures p.id != "" && HasPlayer(s.players, p.id) ==> out == Step(s, Broadcast(ses, s))
    ensures p.id != "" && !HasPlayer(s.players, p.id) ==>
      && out.state.players == s.players + [p.(color := ColorFor(|s.players|))]
      && out.state.rounds == s.rounds && out.state.currentRound == s.currentRound && out.state.phase == s.phase
      && out.events == Broadcast(ses, out.state)
    ensures PlayerIdsUnique(s.players) ==> PlayerIdsUnique(out.state.players)
  {
    if p.id == "" then Step(s, [])
    else if HasPlayer(s.players, p.id) then Step(s, Broadcast(ses, s))
    else
      var s' := s.(players := s.players + [p.(color := ColorFor(|s.players|))]);
      Step(s', Broadcast(ses, s'))
  }

  /** The host's handling of `investment_submit`: an upsert keyed by investor into the target
      round. A missing round leaves everything as it was and sends nothing. */
  function HostInvestment(ses: Session, s: GameState, inv: Investment, n: int): (out: Step)
    ensures FindRound(s.rounds, TargetRound(s, n)).None? ==> out == Step(s, [])
    ensures FindRound(s.rounds, TargetRound(s, n)).Some? ==>
      var t := TargetRound(s, n);
      var r := FindRound(s.rounds, t).value;
      && out.state == s.(rounds := SetInvestments(s.rounds, t, Upsert(r.investments, inv)))
      && out.events == Broadcast(ses, out.state)
  {
    var t := TargetRound(s, n);
    match FindRound(s.rounds, t)
    case None => Step(s, [])
    case Some(r) =>
      var s' := s.(rounds := SetInvestments(s.rounds, t, Upsert(r.investments, inv)));
      Step(s', Broadcast(ses, s'))
  }

  /** The host's handling of `player_ready_next`: adds the id to the target round's ready list
      unless it is already there, in which case nothing changes and nothing is sent. */
  function HostReady(ses: Session, s: GameState, id: string, n: int): (out: Step)
    ensures id == "" || FindRound(s.rounds, TargetRound(s, n)).None? ==> out == Step(s, [])
    ensures id != "" && FindRound(s.rounds, TargetRound(s, n)).Some? ==>
      var t := TargetRound(s, n);
      var ready := FindRound(s.rounds, t).value.readyPlayers;
      && (id in ready ==> out == Step(s, []))
      && (id !in ready ==>
            && out.state == s.(rounds := PatchRounds(s.rounds, t, EmptyPatch.(readyPlayers := Some(ready + [id]))))
            && out.events == Broadcast(ses, out.state))
  {
    if id == "" then Step(s, [])
    else
      var t := TargetRound(s, n);
      match FindRound(s.rounds, t)
      case None => Step(s, [])
      case Some(r) =>
        if id in r.readyPlayers then Step(s, [])
        else
          var s' := s.(rounds := PatchRounds(s.rounds, t, EmptyPatch.(readyPlayers := Some(r.readyPlayers + [id]))));
          Step(s', Broadcast(ses, s'))
  }

  /** What a participant does with an incoming event. State broadcasts are for guests; every
      other event is a request only the host acts upon. */
  function Receive(ses: Session, s: GameState, e: Event): (out: Step)
    ensures !ses.isHost && !e.StateUpdate? ==> out == Step(s, [])
    ensures ses.isHost && e.StateUpdate? ==> out == Step(s, [])
    ensures !ses.isHost ==> out.events == []
    ensures ses.isHost ==> out.events == [] || out.events == Broadcast(ses, out.state)
  {
    match e
    case StateUpdate(snap) =>
      if ses.isHost then Step(s, []) else Step(ApplySnapshot(s, snap), [])
    case PlayerJoin(p) =>
      if ses.isHost then HostJoin(ses, s, p) else Step(s, [])
    case RoundUpdateRequest(n, p) =>
      if ses.isHost && n != 0 then
        var s' := s.(rounds := PatchRounds(s.rounds, n, p));
        Step(s', Broadcast(ses, s'))
      else Step(s, [])
    case PhaseUpdateRequest(phase) =>
      if ses.isHost then
        var s' := s.(phase := phase);
        Step(s', Broadcast(ses, s'))
      else Step(s, [])
    case RoundAndPhaseUpdateRequest(n, p, phase) =>
      if ses.isHost && n != 0 then
        var s' := s.(rounds := PatchRounds(s.rounds, n, p), phase := phase);
        Step(s', Broadcast(ses, s'))
      else Step(s, [])
    case InvestmentSubmit(inv, n) =>
      if ses.isHost then HostInvestment(ses, s, inv, n) else Step(s, [])
    case PlayerReadyNext(id, n) =>
      if ses.isHost then HostReady(ses, s, id, n) else Step(s, [])
  }

  /** The channel subscription completing: from then on the session can send, and a host
      immediately broadcasts its state so that late joiners catch up. */
  function OnSubscribed(ses: Session, s: GameState): (out: (Session, seq<Event>))
    ensures out.0 == ses.(subscribed := true)
    ensures ses.isHost && CanSend(out.0) ==> out.1 == [StateUpdate(FullSnapshot(s))]
    ensures !ses.isHost ==> out.1 == []
  {
    var ses' := ses.(subscribed := true);
    (ses', if ses.isHost then Broadcast(ses', s) else [])
  }

  /** A full snapshot makes the guest's copy identical to the host's state it came from. */
  lemma GuestAdoptsFullSnapshot(ses: Session, guest: GameState, host: GameState)
    requires !ses.isHost
    ensures Receive(ses, guest, StateUpdate(FullSnapshot(host))).state == host
  {
  }

  /** Receivers never order snapshots: of two full snapshots, the one delivered last wins,
      whichever state is the more recent. */
  lemma LastDeliveredSnapshotWins(ses: Session, s: GameState, older: GameState, newer: GameState)
    requires !ses.isHost
    ensures var afterNewer := Receive(ses, s, StateUpdate(FullSnapshot(newer))).state;
      Receive(ses, afterNewer, StateUpdate(FullSnapshot(older))).state == older
  {
  }

  /** A duplicated state broadcast is harmless. */
  lemma DuplicateSnapshotHarmless(ses: Session, s: GameState, snap: Snapshot)
    requires !ses.isHost
    ensures var once := Receive(ses, s, StateUpdate(snap)).state;
      Receive(ses, once, StateUpdate(snap)).state == once
  {
  }

  /** A guest's `updateRound` changes its own copy exactly as the host's handling of the request
      it sends changes the host's copy, when both start from the same state. */
  lemma GuestPatchMatchesHost(guest: Session, host: Session, s: GameState, n: int, p: RoundPatch)
    requires guest.mode == Online && !guest.isHost && CanSend(guest) && host.isHost && n != 0
    ensures UpdateRound(guest, s, n, p).events == [RoundUpdateRequest(n, p)]
    ensures Receive(host, s, RoundUpdateRequest(n, p)).state == UpdateRound(guest, s, n, p).state
  {
  }

  /** The same for `setPhase` and `updateRoundAndPhase` requests: the host reaches what the guest
      asked for. */
  lemma GuestRequestsMatchHost(guest: Session, host: Session, s: GameState, n: int, p: RoundPatch, phase: Phase)
    requires guest.mode == Online && !guest.isHost && CanSend(guest) && host.isHost && n != 0
    ensures SetPhase(guest, s, phase).events == [PhaseUpdateRequest(phase)]
    ensures Receive(host, s, PhaseUpdateRequest(phase)).state == SetPhase(guest, s, phase).state
    ensures UpdateRoundAndPhase(guest, s, n, p, phase).events == [RoundAndPhaseUpdateRequest(n, p, phase)]
    ensures Receive(host, s, RoundAndPhaseUpdateRequest(n, p, phase)).state == UpdateRoundAndPhase(guest, s, n, p, phase).state
  {
  }

  /** Joining twice adds the player once; the second join only re-broadcasts. */
  lemma JoinIsIdempotent(ses: Session, s: GameState, p: Player)
    requires ses.isHost && p.id != ""
    ensures var once := Receive(ses, s, PlayerJoin(p)).state;
      Receive(ses, once, PlayerJoin(p)).state == once
  {
    var once := Receive(ses, s, PlayerJoin(p)).state;
    if !HasPlayer(s.players, p.id) {
      assert once.players[|s.players|].id == p.id;
    }
  }

  /** A ready signal repeated changes nothing the second time and leaves no id twice in the list. */
  lemma ReadyIsIdempotent(ses: Session, s: GameState, id: string, n: int)
    requires ses.isHost && RoundNumbersUnique(s.rounds)
    requires forall j :: 0 <= j < |s.rounds| ==> NoDuplicates(s.rounds[j].readyPlayers)
    ensures var once := Receive(ses, s, PlayerReadyNext(id, n));
      && Receive(ses, once.state, PlayerReadyNext(id, n)) == Step(once.state, [])
      && forall j :: 0 <= j < |once.state.rounds| ==> NoDuplicates(once.state.rounds[j].readyPlayers)
  {
    var once := HostReady(ses, s, id, n);
    ReceiveReady(ses, s, id, n);
    ReceiveReady(ses, once.state, id, n);
    HostReadyTwice(ses, s, id, n);
  }

  lemma ReceiveInvestment(ses: Session, s: GameState, inv: Investment, n: int)
    requires ses.isHost
    ensures Receive(ses, s, InvestmentSubmit(inv, n)) == HostInvestment(ses, s, inv, n)
  {
  }

  lemma ReceiveReady(ses: Session, s: GameState, id: string, n: int)
    requires ses.isHost
    ensures Receive(ses, s, PlayerReadyNext(id, n)) == HostReady(ses, s, id, n)
  {
  }

  lemma HostReadyTwice(ses: Session, s: GameState, id: string, n: int)
    requires RoundNumbersUnique(s.rounds)
    requires forall j :: 0 <= j < |s.rounds| ==> NoDuplicates(s.rounds[j].readyPlayers)
    ensures var once := HostReady(ses, s, id, n);
      && HostReady(ses, once.state, id, n) == Step(once.state, [])
      && forall j :: 0 <= j < |once.state.rounds| ==> NoDuplicates(once.state.rounds[j].readyPlayers)
  {
    var once := HostReady(ses, s, id, n);
    var t := TargetRound(s, n);
    if id != "" && FindRound(s.rounds, t).Some? {
      var r := FindRound(s.rounds, t).value;
      if id !in r.readyPlayers {
        var p := EmptyPatch.(readyPlayers := Some(r.readyPlayers + [id]));
        assert once.state == s.(rounds := PatchRounds(s.rounds, t, p));
        FindAfterPatch(s.rounds, t, p);
        assert TargetRound(once.state, n) == t;
        assert FindRound(once.state.rounds, t) == Some(Merge(r, p));
        assert id in Merge(r, p).readyPlayers;
        ReadyAddKeepsNoDuplicates(s.rounds, t, r, id);
      }
    }
  }

  /** Appending an id not yet in the found round's ready list keeps every ready list free of
      repeats. */
  lemma ReadyAddKeepsNoDuplicates(rounds: seq<Round>, t: int, r: Round, id: string)
    requires RoundNumbersUnique(rounds) && FindRound(rounds, t) == Some(r) && id !in r.readyPlayers
    requires forall j :: 0 <= j < |rounds| ==> NoDuplicates(rounds[j].readyPlayers)
    ensures var out := PatchRounds(rounds, t, EmptyPatch.(readyPlayers := Some(r.readyPlayers + [id])));
      forall j :: 0 <= j < |out| ==> NoDuplicates(out[j].readyPlayers)
  {
    var p := EmptyPatch.(readyPlayers := Some(r.readyPlayers + [id]));
    var out := PatchRounds(rounds, t, p);
    var k :| 0 <= k < |rounds| && rounds[k] == r;
    forall j | 0 <= j < |out| ensures NoDuplicates(out[j].readyPlayers) {
      if rounds[j].roundNumber == t {
        assert j == k;
        assert out[j].readyPlayers == r.readyPlayers + [id];
      }
    }
  }

  /** Two submissions by one investor leave one entry, the second, in the target round. */
  lemma InvestmentResubmitKeepsSecond(ses: Session, s: GameState, a: Investment, b: Investment, n: int)
    requires ses.isHost && n != 0 && a.investorId == b.investorId
    ensures var once := Receive(ses, s, InvestmentSubmit(a, n)).state;
      Receive(ses, once, InvestmentSubmit(b, n)).state == Receive(ses, s, InvestmentSubmit(b, n)).state
  {
    ReceiveInvestment(ses, s, a, n);
    ReceiveInvestment(ses, s, b, n);
    var once := HostInvestment(ses, s, a, n).state;
    ReceiveInvestment(ses, once, b, n);
    match FindRound(s.rounds, n)
    case None =>
    case Some(r) =>
      var p := EmptyPatch.(investments := Some(Upsert(r.investments, a)));
      var q := EmptyPatch.(investments := Some(Upsert(r.investments, b)));
      assert once == s.(rounds := PatchRounds(s.rounds, n, p));
      FindAfterPatch(s.rounds, n, p);
      assert FindRound(once.rounds, n) == Some(Merge(r, p));
      UpsertTwiceKeepsSecond(r.investments, a, b);
      assert HostInvestment(ses, once, b, n).state == once.(rounds := PatchRounds(once.rounds, n, q));
      PatchOverridden(s.rounds, n, p, q);
  }

  /** The host's request handlers never create a second player with the same id nor a second
      round with the same number. */
  lemma HostKeepsIdentitiesUnique(ses: Session, s: GameState, e: Event)
    requires ses.isHost && PlayerIdsUnique(s.players) && RoundNumbersUnique(s.rounds)
    ensures PlayerIdsUnique(Receive(ses, s, e).state.players)
    ensures RoundNumbersUnique(Receive(ses, s, e).state.rounds)
  {
  }

  /** The host's investment handler keeps one investment per investor in every round. */
  lemma HostKeepsInvestorsUnique(ses: Session, s: GameState, inv: Investment, n: int)
    requires ses.isHost
    requires forall j :: 0 <= j < |s.rounds| ==> InvestorsUnique(s.rounds[j].investments)
    ensures var out := Receive(ses, s, InvestmentSubmit(inv, n)).state;
      forall j :: 0 <= j < |out.rounds| ==> InvestorsUnique(out.rounds[j].investments)
  {
  }
}
