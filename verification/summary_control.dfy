/** The round summary: everyone signals they are ready, and the controller either opens the next
    round, with the next player in joining order as the company, or ends the game once every
    player has been the company. */
module SummaryControl {
  import opened Wrappers
  import opened Model
  import opened Store
  import opened Protocol

  /** The ready list of the current round; empty when there is no current round. */
  function ReadyList(s: GameState): seq<string> {
    match CurrentRound(s)
    case None => []
    case Some(r) => r.readyPlayers
  }

  /** The fresh round that follows the current one: the next number, the company picked by
      rotation over the roster, and everything else empty. */
  function NextRoundOf(s: GameState): (r: Round)
    requires |s.players| > 0 && s.currentRound >= 0
    ensures r.roundNumber == s.currentRound + 1
    ensures 0 <= r.companyIndex < |s.players|
    ensures r.companyIndex == s.currentRound % |s.players|
    ensures r.companyId == s.players[r.companyIndex].id && r.companyName == s.players[r.companyIndex].name
    ensures r.topic == "" && !r.topicConfirmed && r.anchorPoints == [] && r.questions == [] && r.investments == []
    ensures !r.completed && !r.graphCompleted && r.timerValue.None? && r.readyPlayers == [] && r.roulette == IdleRoulette
  {
    var n := s.currentRound + 1;
    var k := RotationIndex(n, |s.players|);
    Round(n, s.players[k].id, k, s.players[k].name, "", false, [], [], [], false, false, None, [], IdleRoulette)
  }

  /** "Next": for the controller and a non-empty roster, the game ends once the round counter has
      reached the roster size, and otherwise the next round is opened through the de-duplicating
      advance. The guard against a current round already numbered past the round counter is kept as in
      the screen, though a current round always carries the round counter's number. */
  function HandleNext(ses: Session, s: GameState): (out: Step)
    requires s.currentRound >= 0
    ensures !CanControl(ses) || |s.players| == 0 ==> out == Step(s, [])
    ensures CanControl(ses) && |s.players| > 0 && s.currentRound >= |s.players| ==>
      out == SetPhase(ses, s, FinalResults)
    ensures CanControl(ses) && |s.players| > 0 && s.currentRound < |s.players| ==>
      out == AdvanceToNextRound(ses, s, NextRoundOf(s))
  {
    if !CanControl(ses) then Step(s, [])
    else if |s.players| == 0 then Step(s, [])
    else
      var next := s.currentRound + 1;
      if CurrentRound(s).Some? && CurrentRound(s).value.roundNumber >= next then Step(s, [])
      else if s.currentRound >= |s.players| then SetPhase(ses, s, FinalResults)
      else AdvanceToNextRound(ses, s, NextRoundOf(s))
  }

  /** From round `k` of a game of `P` players (with `0 <= k < P`) the controller opens round
      `k + 1` with player `k` as its company, unless that round exists already; from round `P`
      it ends the game. So every player is the company exactly once, in joining order. */
  lemma NextRoundCompanyIsNextPlayer(ses: Session, s: GameState)
    requires CanControl(ses) && 0 <= s.currentRound < |s.players|
    requires !HasRound(s.rounds, s.currentRound + 1)
    ensures var out := HandleNext(ses, s).state;
      && out.currentRound == s.currentRound + 1 && out.phase == TopicSelection
      && CurrentRound(out).Some?
      && CurrentRound(out).value.companyId == s.players[s.currentRound].id
  {
    var next := NextRoundOf(s);
    assert HandleNext(ses, s) == AdvanceToNextRound(ses, s, next);
    var out := GameState(s.players, next.roundNumber, s.rounds + [next], TopicSelection);
    assert HandleNext(ses, s).state == out;
    FindAppended(s.rounds, next);
    assert CurrentRound(out) == Some(next);
  }

  /** The game ends exactly when the round counter has reached the roster size. */
  lemma GameEndsAfterEveryCompany(ses: Session, s: GameState)
    requires CanControl(ses) && |s.players| > 0 && s.currentRound >= 0
    ensures HandleNext(ses, s).state.phase == FinalResults <==>
      s.currentRound >= |s.players| || (HasRound(s.rounds, s.currentRound + 1) && s.phase == FinalResults)
  {
  }

  /** "Ready": the online host adds itself to the ready list once; a guest tells the host; on one
      device the button goes straight to "next". */
  function HandleReady(ses: Session, s: GameState): (out: Step)
    requires s.currentRound >= 0
    ensures ses.mode == Local ==> out == HandleNext(ses, s)
    ensures ses.mode == Online && !ses.isHost ==>
      out == Step(s, Send(ses, PlayerReadyNext(ses.playerId, if CurrentRound(s).Some? then s.currentRound else 0)))
    ensures ses.mode == Online && ses.isHost && (CurrentRound(s).None? || ses.playerId in ReadyList(s)) ==>
      out == Step(s, [])
    ensures ses.mode == Online && ses.isHost && CurrentRound(s).Some? && ses.playerId !in ReadyList(s) ==>
      out == UpdateRound(ses, s, s.currentRound, EmptyPatch.(readyPlayers := Some(ReadyList(s) + [ses.playerId])))
  {
    if ses.mode == Online then
      if ses.isHost then
        match CurrentRound(s)
        case None => Step(s, [])
        case Some(r) =>
          if ses.playerId in r.readyPlayers then Step(s, [])
          else UpdateRound(ses, s, r.roundNumber, EmptyPatch.(readyPlayers := Some(r.readyPlayers + [ses.playerId])))
      else Step(s, Send(ses, PlayerReadyNext(ses.playerId, match CurrentRound(s) case None => 0 case Some(r) => r.roundNumber)))
    else HandleNext(ses, s)
  }

  /** Pressing ready twice as the host has the effect of pressing it once, and the host's id is
      then in the ready list. */
  lemma HostReadyTwiceIsOnce(ses: Session, s: GameState)
    requires ses.mode == Online && ses.isHost && CurrentRound(s).Some? && s.currentRound >= 0
    ensures var once := HandleReady(ses, s).state;
      && HandleReady(ses, once) == Step(once, [])
      && ses.playerId in ReadyList(once)
  {
    var r := CurrentRound(s).value;
    if ses.playerId !in r.readyPlayers {
      FindAfterPatch(s.rounds, s.currentRound, EmptyPatch.(readyPlayers := Some(r.readyPlayers + [ses.playerId])));
    }
  }

  /** A guest's ready signal, handled by the host, changes the host's rounds exactly as the host
      pressing ready for that player would. */
  lemma GuestReadyMatchesHostReady(guest: Session, host: Session, s: GameState)
    requires guest.mode == Online && !guest.isHost && CanSend(guest) && guest.playerId != ""
    requires host.mode == Online && host.isHost && host.playerId == guest.playerId
    requires CurrentRound(s).Some? && s.currentRound > 0
    ensures |HandleReady(guest, s).events| == 1
    ensures Receive(host, s, HandleReady(guest, s).events[0]).state == HandleReady(host, s).state
  {
    var id := guest.playerId;
    assert HandleReady(guest, s).events == [PlayerReadyNext(id, s.currentRound)];
    ReceiveReady(host, s, id, s.currentRound);
    assert TargetRound(s, s.currentRound) == s.currentRound;
  }

  /** The host's automatic "next" once at least as many players are ready as there are
      players. */
  function ReadyAutoAdvance(ses: Session, s: GameState): (out: Step)
    requires s.currentRound >= 0
    ensures (ses.mode == Online && ses.isHost && CurrentRound(s).Some? && 0 < |s.players| <= |ReadyList(s)|)
            ==> out == HandleNext(ses, s)
    ensures !(ses.mode == Online && ses.isHost && CurrentRound(s).Some? && 0 < |s.players| <= |ReadyList(s)|)
            ==> out == Step(s, [])
  {
    if ses.mode == Online && ses.isHost && CurrentRound(s).Some? && 0 < |s.players| <= |ReadyList(s)|
    then HandleNext(ses, s)
    else Step(s, [])
  }
}
