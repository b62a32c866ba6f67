/** The company's curve editor: clicks on the chart add, move or remove anchor points, and a
    submission checks the curve before it becomes the round's curve. The editor's point list is
    the company's private draft until submitted. */
module CurveEditor {
  import opened Wrappers
  import opened Seqs
  import opened Arith
  import opened Sorting
  import opened Model
  import opened Store
  import opened Roles
  import opened Interpolation

  /** At most this many anchor points may be placed. */
  const MaxPoints: nat := 10
  /** A submitted curve needs at least this many points. */
  const MinPoints: nat := 5
  /** A submitted curve must rise or fall by at least this much overall. */
  const MinSwing: int := 50
  /** A click this close (strictly) to an existing point's score removes the point. */
  const RemoveTolerance: int := 5

  datatype EditorError = TooManyPoints | MissingEndpoints | TooFewPoints | TooFlat

  /** The draft curve and the message shown under it. */
  datatype Editor = Editor(points: seq<AnchorPoint>, error: Option<EditorError>)

  const EmptyEditor: Editor := Editor([], None)

  /** What every click keeps: ordered by age, no age twice, at most ten points. */
  predicate Valid(points: seq<AnchorPoint>) {
    StrictlySorted(points) && |points| <= MaxPoints
  }

  /** Position of the point at `age`, or -1. */
  function PointAt(points: seq<AnchorPoint>, age: int): (k: int)
    ensures -1 <= k < |points|
    ensures k >= 0 ==> points[k].age == age
    ensures k == -1 <==> forall j :: 0 <= j < |points| ==> points[j].age != age
  {
    FirstIndex(points, (p: AnchorPoint) => p.age == age)
  }

  /** A click at `(age, score)`. Nothing happens for anyone but the company. A click near an
      existing point's score removes it, one further away moves it; a click at a new age adds a
      point while there are fewer than ten, and otherwise only raises the limit message. */
  function Click(isCompany: bool, ed: Editor, age: int, score: int): (out: Editor)
    ensures !isCompany ==> out == ed
    ensures isCompany && PointAt(ed.points, age) >= 0 ==> out.error.None?
    ensures isCompany && PointAt(ed.points, age) >= 0 && Abs(ed.points[PointAt(ed.points, age)].score - score) < RemoveTolerance
            ==> out.points == RemoveAt(ed.points, PointAt(ed.points, age))
    ensures isCompany && PointAt(ed.points, age) >= 0 && Abs(ed.points[PointAt(ed.points, age)].score - score) >= RemoveTolerance
            ==> |out.points| == |ed.points| && AnchorPoint(age, score) in out.points
    ensures isCompany && PointAt(ed.points, age) == -1 && |ed.points| < MaxPoints
            ==> out.error.None? && |out.points| == |ed.points| + 1
                && multiset(out.points) == multiset(ed.points) + multiset{AnchorPoint(age, score)}
    ensures isCompany && PointAt(ed.points, age) == -1 && |ed.points| >= MaxPoints
            ==> out == ed.(error := Some(TooManyPoints))
  {
    if !isCompany then ed
    else
      var k := PointAt(ed.points, age);
      if k >= 0 then
        if Abs(ed.points[k].score - score) < RemoveTolerance then Editor(RemoveAt(ed.points, k), None)
        else
          var moved := ed.points[k := AnchorPoint(age, score)];
          assert AnchorPoint(age, score) in multiset(moved) by { assert moved[k] == AnchorPoint(age, score); }
          Editor(SortByKey(moved, AgeOf), None)
      else if |ed.points| < MaxPoints then Editor(SortByKey(ed.points + [AnchorPoint(age, score)], AgeOf), None)
      else ed.(error := Some(TooManyPoints))
  }

  /** On a valid draft a move keeps every point where it was and changes only that point's
      score, and a removal leaves no point at that age. */
  lemma ClickInPlace(ed: Editor, age: int, score: int)
    requires Valid(ed.points) && PointAt(ed.points, age) >= 0
    ensures var k := PointAt(ed.points, age); var out := Click(true, ed, age, score);
      && (Abs(ed.points[k].score - score) >= RemoveTolerance ==> out.points == ed.points[k := AnchorPoint(age, score)])
      && (Abs(ed.points[k].score - score) < RemoveTolerance ==>
            |out.points| == |ed.points| - 1 && PointAt(out.points, age) == -1)
  {
    var k := PointAt(ed.points, age);
    if Abs(ed.points[k].score - score) < RemoveTolerance {
      RemoveClearsAge(ed.points, k);
    } else {
      MoveKeepsStrict(ed.points, k, score);
      var moved := ed.points[k := AnchorPoint(age, score)];
      assert SortedByKey(moved, AgeOf) by {
        forall i, j | 0 <= i < j < |moved| ensures AgeOf(moved[i]) <= AgeOf(moved[j]) {
          assert moved[i].age < moved[j].age;
        }
      }
      SortSortedIsIdentity(moved, AgeOf);
    }
  }

  /** Removing the point at `k` leaves no point at its age. */
  lemma RemoveClearsAge(points: seq<AnchorPoint>, k: nat)
    requires StrictlySorted(points) && k < |points|
    ensures PointAt(RemoveAt(points, k), points[k].age) == -1
  {
    var out := RemoveAt(points, k);
    forall j | 0 <= j < |out| ensures out[j].age != points[k].age {
      if j < k {
        assert out[j] == points[j];
      } else {
        assert out[j] == points[j + 1];
      }
    }
  }

  /** Removing a point keeps the order strict. */
  lemma RemoveKeepsStrict(points: seq<AnchorPoint>, k: nat)
    requires StrictlySorted(points) && k < |points|
    ensures StrictlySorted(RemoveAt(points, k))
  {
    var out := RemoveAt(points, k);
    forall i, j | 0 <= i < j < |out| ensures out[i].age < out[j].age {
      var i' := if i < k then i else i + 1;
      var j' := if j < k then j else j + 1;
      assert out[i] == points[i'] && out[j] == points[j'];
    }
  }

  /** Adding a point at a new age keeps the order strict. */
  lemma AddKeepsStrict(points: seq<AnchorPoint>, p: AnchorPoint)
    requires StrictlySorted(points) && PointAt(points, p.age) == -1
    ensures StrictlySorted(SortByKey(points + [p], AgeOf))
  {
    assert StrictlySortedByKey(points, AgeOf);
    SortAppendIsInsert(points, p, AgeOf);
    InsertKeepsStrict(points, p, AgeOf);
    assert StrictlySortedByKey(SortByKey(points + [p], AgeOf), AgeOf);
  }

  /** Changing the score of a point, keeping its age, keeps the order strict. */
  lemma MoveKeepsStrict(points: seq<AnchorPoint>, k: nat, score: int)
    requires StrictlySorted(points) && k < |points|
    ensures StrictlySorted(points[k := AnchorPoint(points[k].age, score)])
  {
    var out := points[k := AnchorPoint(points[k].age, score)];
    forall i, j | 0 <= i < j < |out| ensures out[i].age < out[j].age {
      assert out[i].age == points[i].age && out[j].age == points[j].age;
    }
  }

  /** Every click keeps a valid draft valid. */
  lemma ClickKeepsValid(isCompany: bool, ed: Editor, age: int, score: int)
    requires Valid(ed.points)
    ensures Valid(Click(isCompany, ed, age, score).points)
  {
    var out := Click(isCompany, ed, age, score).points;
    if isCompany {
      var k := PointAt(ed.points, age);
      if k >= 0 {
        if Abs(ed.points[k].score - score) < RemoveTolerance {
          assert out == RemoveAt(ed.points, k);
          RemoveKeepsStrict(ed.points, k);
        } else {
          ClickInPlace(ed, age, score);
          assert out == ed.points[k := AnchorPoint(ed.points[k].age, score)];
          MoveKeepsStrict(ed.points, k, score);
        }
      } else if |ed.points| < MaxPoints {
        assert out == SortByKey(ed.points + [AnchorPoint(age, score)], AgeOf);
        AddKeepsStrict(ed.points, AnchorPoint(age, score));
      }
    }
  }

  /** The largest score of a non-empty list. */
  function MaxScore(points: seq<AnchorPoint>): (m: int)
    requires |points| > 0
    ensures forall i :: 0 <= i < |points| ==> points[i].score <= m
    ensures exists i :: 0 <= i < |points| && points[i].score == m
  {
    if |points| == 1 then points[0].score
    else
      var rest := MaxScore(points[1..]);
      assert forall i :: 1 <= i < |points| ==> points[i] == points[1..][i - 1];
      Max(points[0].score, rest)
  }

  /** The smallest score of a non-empty list. */
  function MinScore(points: seq<AnchorPoint>): (m: int)
    requires |points| > 0
    ensures forall i :: 0 <= i < |points| ==> m <= points[i].score
    ensures exists i :: 0 <= i < |points| && points[i].score == m
  {
    if |points| == 1 then points[0].score
    else
      var rest := MinScore(points[1..]);
      assert forall i :: 1 <= i < |points| ==> points[i] == points[1..][i - 1];
      Min(points[0].score, rest)
  }

  predicate HasAge(points: seq<AnchorPoint>, age: int) {
    exists i :: 0 <= i < |points| && points[i].age == age
  }

  /** The submission checks, in order: a point at age 0 and one at the company's age, then at
      least five points, then an overall swing of at least 50. The first failing check is
      reported; none failing means the curve is accepted. */
  function Validate(points: seq<AnchorPoint>, maxAge: int): (e: Option<EditorError>)
    ensures e == Some(MissingEndpoints) <==> !HasAge(points, 0) || !HasAge(points, maxAge)
    ensures e == Some(TooFewPoints) <==> HasAge(points, 0) && HasAge(points, maxAge) && |points| < MinPoints
    ensures e == Some(TooFlat) <==>
      (HasAge(points, 0) && HasAge(points, maxAge) && |points| >= MinPoints
       && forall i, j :: 0 <= i < |points| && 0 <= j < |points| ==> points[j].score - points[i].score < MinSwing)
    ensures e.None? <==>
      (HasAge(points, 0) && HasAge(points, maxAge) && |points| >= MinPoints
       && exists i, j :: 0 <= i < |points| && 0 <= j < |points| && points[j].score - points[i].score >= MinSwing)
    ensures e != Some(TooManyPoints)
  {
    if !HasAge(points, 0) || !HasAge(points, maxAge) then Some(MissingEndpoints)
    else if |points| < MinPoints then Some(TooFewPoints)
    else if MaxScore(points) - MinScore(points) < MinSwing then Some(TooFlat)
    else None
  }

  /** The patch a submitted curve writes: the points and the completed-curve flag. */
  function CurvePatch(points: seq<AnchorPoint>): RoundPatch {
    EmptyPatch.(anchorPoints := Some(points), graphCompleted := Some(true))
  }

  /** Submission. A failed check only shows its message. An accepted curve with a current round
      becomes that round's curve, flagged completed, and the game moves to the questions: online
      as a single combined update, on one device as a round update followed by a phase change. */
  function Submit(ses: Session, s: GameState, ed: Editor): (out: (Editor, Step))
    ensures Validate(ed.points, MaxAge(s)).Some? ==>
      out == (ed.(error := Validate(ed.points, MaxAge(s))), Step(s, []))
    ensures Validate(ed.points, MaxAge(s)).None? && CurrentRound(s).None? ==> out == (ed, Step(s, []))
    ensures Validate(ed.points, MaxAge(s)).None? && CurrentRound(s).Some? ==>
      && out.0 == ed
      && out.1.state == s.(rounds := PatchRounds(s.rounds, s.currentRound, CurvePatch(ed.points)), phase := Questions)
    ensures ses.mode == Online && Validate(ed.points, MaxAge(s)).None? && CurrentRound(s).Some? ==>
      out.1 == UpdateRoundAndPhase(ses, s, s.currentRound, CurvePatch(ed.points), Questions)
    ensures ses.mode == Local ==> out.1.events == []
  {
    match Validate(ed.points, MaxAge(s))
    case Some(e) => (ed.(error := Some(e)), Step(s, []))
    case None =>
      match CurrentRound(s)
      case None => (ed, Step(s, []))
      case Some(r) =>
        if ses.mode == Online then (ed, UpdateRoundAndPhase(ses, s, s.currentRound, CurvePatch(ed.points), Questions))
        else
          var first := UpdateRound(ses, s, r.roundNumber, CurvePatch(ed.points));
          (ed, Then(first, SetPhase(ses, first.state, Questions)))
  }

  /** A curve built by clicks inside the chart and accepted at submission starts at age 0 and
      ends at the company's age, so its table covers every age an investor may choose, and it
      has between five and ten points. */
  lemma AcceptedCurveSpansAxis(points: seq<AnchorPoint>, maxAge: int)
    requires Valid(points) && forall i :: 0 <= i < |points| ==> 0 <= points[i].age <= maxAge
    requires Validate(points, maxAge).None?
    ensures points[0].age == 0 && points[|points| - 1].age == maxAge
    ensures MinPoints <= |points| <= MaxPoints
  {
    var i :| 0 <= i < |points| && points[i].age == 0;
    var j :| 0 <= j < |points| && points[j].age == maxAge;
  }

  /** A submitted curve lands in the current round as drafted, the round's curve is marked
      complete, and the game is in the questions phase, whichever way the participant is
      connected. */
  lemma SubmitInstallsCurve(ses: Session, s: GameState, ed: Editor)
    requires Validate(ed.points, MaxAge(s)).None? && CurrentRound(s).Some?
    ensures var after := Submit(ses, s, ed).1.state;
      && CurrentRound(after).Some?
      && CurrentRound(after).value.anchorPoints == ed.points
      && CurrentRound(after).value.graphCompleted
      && after.phase == Questions
      && after.players == s.players && after.currentRound == s.currentRound
  {
    FindAfterPatch(s.rounds, s.currentRound, CurvePatch(ed.points));
  }
}
