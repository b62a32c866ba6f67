/** The reveal screen: the controller moves the game from the reveal to the results. */
module RevealControl {
  import opened Model
  import opened Store
  import opened Protocol

  /** The reveal's "show results": for the controller only the phase changes, to the results;
      for an online guest nothing happens. */
  function RevealResults(ses: Session, s: GameState): (out: Step)
    ensures !CanControl(ses) ==> out == Step(s, [])
    ensures CanControl(ses) ==> out.state == s.(phase := Results)
    ensures ses.mode == Online && ses.isHost ==> out.events == Broadcast(ses, out.state)
    ensures ses.mode == Local ==> out.events == []
  {
    if ses.mode == Online then
      if ses.isHost then SetPhase(ses, s, Results) else Step(s, [])
    else SetPhase(ses, s, Results)
  }

  /** A guest can only follow the host: after the host reveals and broadcasts, the guest that
      adopts the broadcast is on the results too, with the host's state. */
  lemma GuestFollowsHostReveal(host: Session, guest: Session, s: GameState, gs: GameState)
    requires host.mode == Online && host.isHost && CanSend(host)
    requires guest.mode == Online && !guest.isHost
    ensures |RevealResults(host, s).events| == 1
    ensures var out := RevealResults(host, s);
      var seen := Receive(guest, gs, out.events[0]).state;
      seen == out.state && seen.phase == Results
    ensures RevealResults(guest, gs) == Step(gs, [])
  {
    GuestAdoptsFullSnapshot(guest, gs, s.(phase := Results));
  }
}
