/** The game screen: which phase screen is shown, and the creation of the first round when a
    game starts. */
module Screens {
  import opened Wrappers
  import opened Model
  import opened Store
  import opened Roles

  datatype Screen = TopicScreen | GraphScreen | QuestionScreen | InvestmentScreen
                  | RevealScreen | ResultsScreen | SummaryScreen | FinalScreen

  /** The screen a phase shows; the setup phase belongs to the lobby and shows none here. */
  function ScreenFor(p: Phase): (sc: Option<Screen>)
    ensures sc.None? <==> p == Setup
  {
    match p
    case Setup => None
    case TopicSelection => Some(TopicScreen)
    case GraphCreation => Some(GraphScreen)
    case Questions => Some(QuestionScreen)
    case Investing => Some(InvestmentScreen)
    case ResultsReveal => Some(RevealScreen)
    case Results => Some(ResultsScreen)
    case RoundSummary => Some(SummaryScreen)
    case FinalResults => Some(FinalScreen)
  }

  /** The phase a screen belongs to. */
  function PhaseOf(sc: Screen): (p: Phase)
    ensures p != Setup
  {
    match sc
    case TopicScreen => TopicSelection
    case GraphScreen => GraphCreation
    case QuestionScreen => Questions
    case InvestmentScreen => Investing
    case RevealScreen => ResultsReveal
    case ResultsScreen => Results
    case SummaryScreen => RoundSummary
    case FinalScreen => FinalResults
  }

  /** Every game phase shows exactly one screen, the one that belongs to it, and every screen is
      shown by its phase: no two phases share a screen. */
  lemma ScreensMatchPhases(p: Phase, sc: Screen)
    ensures p != Setup ==> PhaseOf(ScreenFor(p).value) == p
    ensures ScreenFor(PhaseOf(sc)) == Some(sc)
  {
  }

  /** The first round: number 1 with the first player as company, everything else empty. */
  function FirstRound(s: GameState): (r: Round)
    requires |s.players| > 0
    ensures r.roundNumber == 1 && r.companyIndex == 0
    ensures r.companyId == s.players[0].id && r.companyName == s.players[0].name
    ensures r.topic == "" && r.anchorPoints == [] && r.questions == [] && r.investments == [] && r.readyPlayers == []
    ensures !r.completed && !r.graphCompleted && !r.topicConfirmed && r.timerValue.None? && r.roulette == IdleRoulette
  {
    Round(1, s.players[0].id, 0, s.players[0].name, "", false, [], [], [], false, false, None, [], IdleRoulette)
  }

  /** When a game has just started (round counter 0, topic selection, players present), the controller
      creates round 1; no one else does, and nothing happens at any other time. */
  function InitFirstRound(ses: Session, s: GameState): (out: Step)
    ensures !(CanControl(ses) && s.currentRound == 0 && s.phase == TopicSelection && |s.players| > 0)
            ==> out == Step(s, [])
    ensures CanControl(ses) && s.currentRound == 0 && s.phase == TopicSelection && |s.players| > 0
            ==> out == AddRound(ses, s, FirstRound(s))
  {
    if CanControl(ses) && s.currentRound == 0 && s.phase == TopicSelection && |s.players| > 0
    then AddRound(ses, s, FirstRound(s))
    else Step(s, [])
  }

  /** After the first round is created the game points at it, its company is the first player,
      and creating it again does nothing, so round 1 is created once. */
  lemma FirstRoundCreatedOnce(ses: Session, s: GameState)
    requires CanControl(ses) && s.currentRound == 0 && s.phase == TopicSelection && |s.players| > 0
    requires !HasRound(s.rounds, 1)
    ensures var once := InitFirstRound(ses, s).state;
      && once.currentRound == 1 && CurrentRound(once).Some?
      && CurrentRound(once).value.companyIndex == 0
      && (s.players[0].id != "" ==> CompanyId(once) == s.players[0].id)
      && InitFirstRound(ses, once) == Step(once, [])
  {
    var once := InitFirstRound(ses, s).state;
    var r := once.rounds[|s.rounds|];
    assert once.rounds == s.rounds + [r];
    assert RoundIndex(once.rounds, 1) == |s.rounds|;
  }
}
