/** Settlement of a round: each wager is priced on the company's curve table, paid out as the
    ratio of the sell score to the buy score, and added to the investor's balance. The round's
    `completed` flag makes settlement happen once. */
module Scoring {
  import opened Wrappers
  import opened Arith
  import opened Model
  import opened Store
  import opened Roles
  import opened Interpolation
  import opened InvestmentDesk

  /** A table lookup where a missing age reads as 0 (`graphData[age] || 0`). */
  function TableScore(t: map<int, int>, age: int): int {
    if age in t then t[age] else 0
  }

  /** The payout of `points` bought at raw score `rawBuy` and sold at raw score `rawSell`. Both
      scores count as at least 1; the payout is the stake scaled by sell over buy, rounded half
      up, and a falling score turns it into a loss of that size. */
  function PointsGained(points: int, rawBuy: int, rawSell: int): (g: int)
    ensures var buy := Max(rawBuy, 1); var sell := Max(rawSell, 1);
      && (sell >= buy ==> buy * (2 * g - 1) <= 2 * (points * sell) < buy * (2 * g + 1))
      && (sell < buy ==> g <= 0)
      && (sell < buy && points >= 0 ==> buy * (2 * -g - 1) <= 2 * (points * sell) < buy * (2 * -g + 1))
  {
    var buy := Max(rawBuy, 1);
    var sell := Max(rawSell, 1);
    var r := RoundDiv(points * sell, buy);
    if sell < buy then
      PayoutMagnitude(points, buy, sell);
      var g := -Abs(r);
      assert points >= 0 ==> -g == r;
      g
    else r
  }

  lemma PayoutMagnitude(points: int, buy: int, sell: int)
    requires 1 <= sell < buy
    ensures points >= 0 ==> 0 <= RoundDiv(points * sell, buy) <= points
    ensures points < 0 ==> RoundDiv(points * sell, buy) <= 0
  {
    if points >= 0 {
      MulMonotone(points + 1, sell, buy);
      RoundDivBounds(points * sell, buy, 0, points);
    } else {
      MulMonotone(-points, 1, sell);
      RoundDivBounds(points * sell, buy, points * sell, 0);
    }
  }

  /** The promised shape of a payout on a positive stake: the stake comes back whole when the
      scores are equal, grows when the sell score is higher, and a lower sell score costs at most
      the stake. The rule looks only at the scores, not at which age is the later one. */
  lemma PayoutBounds(points: int, rawBuy: int, rawSell: int)
    requires points >= 0
    ensures var buy := Max(rawBuy, 1); var sell := Max(rawSell, 1); var g := PointsGained(points, rawBuy, rawSell);
      && (sell == buy ==> g == points)
      && (sell > buy ==> g >= points)
      && (sell < buy ==> -points <= g <= 0)
  {
    var buy := Max(rawBuy, 1);
    var sell := Max(rawSell, 1);
    if sell == buy {
      RoundDivExact(points, buy);
      assert points * sell == points * buy;
    } else if sell > buy {
      MulMonotone(points + 1, buy, sell);
      RoundDivBounds(points * sell, buy, points, points * sell);
    } else {
      PayoutMagnitude(points, buy, sell);
    }
  }

  /** A wager the form accepts can always be settled without overdrawing: both of its ages lie
      on the results table's axis, and however the curve turns out, the payout added to the
      balance the form checked against leaves it non-negative. */
  lemma AcceptedWagerIsSettleable(e: Entry, balance: int, maxAge: int, a: seq<AnchorPoint>, rawBuy: int, rawSell: int)
    requires Check(e, Some(balance), maxAge).Success?
    ensures var w := Check(e, Some(balance), maxAge).value;
      && (|a| > 0 ==> w.buyAge in InterpolateGraph(a, maxAge) && w.sellAge in InterpolateGraph(a, maxAge))
      && balance + PointsGained(w.points, rawBuy, rawSell) >= 0
  {
    var w := Check(e, Some(balance), maxAge).value;
    PayoutBounds(w.points, rawBuy, rawSell);
  }

  /** The worked example of the rules: a 1000-point stake bought at 40 and sold at 80. */
  lemma RulesExample()
    ensures PointsGained(1000, 40, 80) == 2000
  {
    RoundDivExact(2000, 40);
    assert 1000 * 80 == 2000 * 40;
  }

  /** Prices one wager: the raw table scores are stored as they are (unclamped) along with the
      payout; everything the investor chose is kept. */
  function ScoreInvestment(t: map<int, int>, inv: Investment): (out: Investment)
    ensures out.investorId == inv.investorId && out.buyAge == inv.buyAge
    ensures out.sellAge == inv.sellAge && out.investmentPoints == inv.investmentPoints
    ensures out.buyScore == Some(TableScore(t, inv.buyAge)) && out.sellScore == Some(TableScore(t, inv.sellAge))
    ensures out.pointsGained == Some(PointsGained(inv.investmentPoints, out.buyScore.value, out.sellScore.value))
  {
    var rawBuy := TableScore(t, inv.buyAge);
    var rawSell := TableScore(t, inv.sellAge);
    inv.(buyScore := Some(rawBuy), sellScore := Some(rawSell),
         pointsGained := Some(PointsGained(inv.investmentPoints, rawBuy, rawSell)))
  }

  /** Prices every wager of the round, in order. */
  function ScoreAll(t: map<int, int>, invs: seq<Investment>): (out: seq<Investment>)
    ensures |out| == |invs|
    ensures forall i :: 0 <= i < |out| ==> out[i] == ScoreInvestment(t, invs[i])
  {
    seq(|invs|, i requires 0 <= i < |invs| => ScoreInvestment(t, invs[i]))
  }

  /** Adds to each player's balance the payout of the first result that names them; a player
      without a result keeps their record as it is. Order and count are preserved. */
  function Credit(players: seq<Player>, results: seq<Investment>): (out: seq<Player>)
    ensures |out| == |players|
    ensures forall i :: 0 <= i < |out| ==>
      && out[i].id == players[i].id && out[i].name == players[i].name
      && out[i].age == players[i].age && out[i].color == players[i].color
    ensures forall i :: 0 <= i < |out| && InvestorIndex(results, players[i].id) == -1 ==> out[i] == players[i]
    ensures forall i :: 0 <= i < |out| && InvestorIndex(results, players[i].id) >= 0 ==>
      out[i].currentPoint == players[i].currentPoint + results[InvestorIndex(results, players[i].id)].pointsGained.GetOr(0)
  {
    seq(|players|, i requires 0 <= i < |players| =>
      var k := InvestorIndex(results, players[i].id);
      if k == -1 then players[i]
      else players[i].(currentPoint := players[i].currentPoint + results[k].pointsGained.GetOr(0)))
  }

  /** With one result per investor, each investor is credited exactly the payout of their own
      wager. */
  lemma CreditOwnPayout(players: seq<Player>, results: seq<Investment>, i: nat, r: Investment)
    requires InvestorsUnique(results) && i < |players| && r in results && r.investorId == players[i].id
    ensures Credit(players, results)[i].currentPoint == players[i].currentPoint + r.pointsGained.GetOr(0)
  {
    var j :| 0 <= j < |results| && results[j] == r;
  }

  /** The patch settlement writes to the round: the priced wagers and the completed flag. */
  function SettlePatch(results: seq<Investment>): RoundPatch {
    EmptyPatch.(investments := Some(results), completed := Some(true))
  }

  /** The scoring step of the results screen. It acts only for a controlling participant, on an
      existing current round that has a curve and is not yet completed: the wagers are priced on
      the curve table up to the company's age, balances are credited, and the round is marked
      completed, all in one update. */
  function ScoreRound(ses: Session, s: GameState): (out: Step)
    ensures !CanControl(ses) || CurrentRound(s).None? ==> out == Step(s, [])
    ensures CurrentRound(s).Some? && (CurrentRound(s).value.completed || |CurrentRound(s).value.anchorPoints| == 0)
            ==> out == Step(s, [])
    ensures CanControl(ses) && CurrentRound(s).Some? && !CurrentRound(s).value.completed
            && |CurrentRound(s).value.anchorPoints| > 0 ==>
      var r := CurrentRound(s).value;
      var results := ScoreAll(InterpolateGraph(r.anchorPoints, MaxAge(s)), r.investments);
      out == UpdatePlayersAndRounds(ses, s, Credit(s.players, results), s.currentRound, SettlePatch(results))
  {
    if !CanControl(ses) then Step(s, [])
    else
      match CurrentRound(s)
      case None => Step(s, [])
      case Some(r) =>
        if r.completed || |r.anchorPoints| == 0 then Step(s, [])
        else
          var results := ScoreAll(InterpolateGraph(r.anchorPoints, MaxAge(s)), r.investments);
          UpdatePlayersAndRounds(ses, s, Credit(s.players, results), r.roundNumber, SettlePatch(results))
  }

  /** Settlement leaves the current round completed with every wager priced, and the round counter,
      phase and roster order as they were. */
  lemma ScoreRoundCompletes(ses: Session, s: GameState)
    requires CanControl(ses) && CurrentRound(s).Some? && |CurrentRound(s).value.anchorPoints| > 0
    requires !CurrentRound(s).value.completed
    ensures var out := ScoreRound(ses, s).state;
      && CurrentRound(out).Some? && CurrentRound(out).value.completed
      && |CurrentRound(out).value.investments| == |CurrentRound(s).value.investments|
      && (forall i :: 0 <= i < |CurrentRound(out).value.investments| ==>
            CurrentRound(out).value.investments[i].pointsGained.Some?)
      && out.currentRound == s.currentRound && out.phase == s.phase
      && |out.players| == |s.players|
  {
    var r := CurrentRound(s).value;
    var results := ScoreAll(InterpolateGraph(r.anchorPoints, MaxAge(s)), r.investments);
    FindAfterPatch(s.rounds, s.currentRound, SettlePatch(results));
  }

  /** Settling twice credits once: a second scoring step changes nothing and sends nothing. */
  lemma ScoreRoundIdempotent(ses: Session, s: GameState)
    ensures var once := ScoreRound(ses, s); ScoreRound(ses, once.state) == Step(once.state, [])
  {
    var once := ScoreRound(ses, s);
    if CanControl(ses) && CurrentRound(s).Some? && |CurrentRound(s).value.anchorPoints| > 0
       && !CurrentRound(s).value.completed {
      ScoreRoundCompletes(ses, s);
    } else {
      assert once.state == s;
    }
  }

  /** The company curve of the worked end-to-end game: a stake of 1000 bought at age 0
      (score 50) and sold at age 50 (score 90) pays 1800, taking a 10000 balance to 11800. */
  lemma EndToEndExample()
    ensures var a := [AnchorPoint(0, 50), AnchorPoint(50, 90), AnchorPoint(100, 10)];
      var t := InterpolateGraph(a, 100);
      var inv := ScoreInvestment(t, Investment("p2", 0, 50, 1000, None, None, None));
      && inv.buyScore == Some(50) && inv.sellScore == Some(90) && inv.pointsGained == Some(1800)
      && Credit([Player("p2", "B", 30, 10000, "")], [inv])[0].currentPoint == 11800
  {
    var a := [AnchorPoint(0, 50), AnchorPoint(50, 90), AnchorPoint(100, 10)];
    assert StrictlySorted(a);
    TableHitsAnchors(a, 100, 0);
    TableHitsAnchors(a, 100, 1);
    RoundDivExact(1800, 50);
    assert 1000 * 90 == 1800 * 50;
  }

  /** A short position on the end-to-end curve: bought at age 80 (score 42) and sold at age 0
      (score 50), the sell score is the higher one, so the 1000-point stake gains, and pays 1190. */
  lemma ShortPositionExample()
    ensures var a := [AnchorPoint(0, 50), AnchorPoint(50, 90), AnchorPoint(100, 10)];
      var inv := ScoreInvestment(InterpolateGraph(a, 100), Investment("p2", 80, 0, 1000, None, None, None));
      inv.buyScore == Some(42) && inv.sellScore == Some(50) && inv.pointsGained == Some(1190)
  {
    var a := [AnchorPoint(0, 50), AnchorPoint(50, 90), AnchorPoint(100, 10)];
    var t := InterpolateGraph(a, 100);
    ShortCurvePoints();
    assert TableScore(t, 80) == 42 && TableScore(t, 0) == 50;
    var g := PointsGained(1000, 42, 50);
    assert 42 * (2 * g - 1) <= 100000 < 42 * (2 * g + 1);
  }

  lemma ShortCurvePoints()
    ensures var t := InterpolateGraph([AnchorPoint(0, 50), AnchorPoint(50, 90), AnchorPoint(100, 10)], 100);
      t[0] == 50 && t[80] == 42
  {
    var a := [AnchorPoint(0, 50), AnchorPoint(50, 90), AnchorPoint(100, 10)];
    assert StrictlySorted(a);
    TableHitsAnchors(a, 100, 0);
    TableBetweenAnchors(a, 100, 1, 80);
    RoundDivExact(42, 50);
    assert 90 * 50 + 30 * -80 == 42 * 50;
  }

  /** The results screen's "next" control: only the phase changes, to the round summary. */
  function HandleNextRound(ses: Session, s: GameState): (out: Step)
    ensures out.state.players == s.players && out.state.rounds == s.rounds
    ensures out.state.currentRound == s.currentRound && out.state.phase == RoundSummary
  {
    SetPhase(ses, s, RoundSummary)
  }
}
