/** The life curve: piecewise-linear interpolation through the anchor points, held flat beyond
    the first and last point, rounded to whole scores. Two renderings exist in the game: the
    per-age table the scoring uses and the single-age lookup the graph uses; they agree. Also
    the graph's click clamp and its age-label spacing. */
module Interpolation {
  import opened Arith
  import opened Sorting
  import opened Model

  function AgeOf(p: AnchorPoint): int { p.age }

  /** Anchor points ordered by age with no age twice: the shape the curve editor keeps. */
  predicate StrictlySorted(a: seq<AnchorPoint>) {
    forall i, j :: 0 <= i < j < |a| ==> a[i].age < a[j].age
  }

  /** The bracket search `while (i < n - 1 && a[i + 1].age <= age) i++` started at `i`: it
      stops at the first index whose successor lies beyond `age`, or at the last index. */
  function Scan(a: seq<AnchorPoint>, age: int, i: nat): (j: nat)
    requires i < |a|
    ensures i <= j < |a|
    ensures forall k :: i < k <= j ==> a[k].age <= age
    ensures j == |a| - 1 || a[j + 1].age > age
    decreases |a| - i
  {
    if i < |a| - 1 && a[i + 1].age <= age then Scan(a, age, i + 1) else i
  }

  /** On ordered anchors the search finds the segment holding `age`. */
  lemma ScanFindsSegment(a: seq<AnchorPoint>, age: int, k: nat)
    requires StrictlySorted(a) && k + 1 < |a| && a[k].age <= age < a[k + 1].age
    ensures Scan(a, age, 0) == k
  {
  }

  /** The rounded straight-line value at `age` between `(a1, s1)` and `(a2, s2)`:
      `Math.round(s1 + (age - a1) / (a2 - a1) * (s2 - s1))` in exact arithmetic. */
  function Lerp(a1: int, s1: int, a2: int, s2: int, age: int): (v: int)
    requires a1 < a2
    ensures a1 <= age <= a2 ==> Min(s1, s2) <= v <= Max(s1, s2)
    ensures age == a1 ==> v == s1
    ensures age == a2 ==> v == s2
  {
    LerpFacts(a1, s1, a2, s2, age);
    RoundDiv(s1 * (a2 - a1) + (age - a1) * (s2 - s1), a2 - a1)
  }

  lemma LerpFacts(a1: int, s1: int, a2: int, s2: int, age: int)
    requires a1 < a2
    ensures var r := RoundDiv(s1 * (a2 - a1) + (age - a1) * (s2 - s1), a2 - a1);
      (a1 <= age <= a2 ==> Min(s1, s2) <= r <= Max(s1, s2))
      && (age == a1 ==> r == s1) && (age == a2 ==> r == s2)
  {
    var d := a2 - a1;
    LerpBounds(d, s1, s2, age - a1);
    if age == a1 {
      LerpEndpoints(d, s1, s2, age - a1);
    }
    if age == a2 {
      LerpEndpoints(d, s1, s2, age - a1);
    }
  }

  lemma LerpEndpoints(d: int, s1: int, s2: int, x: int)
    requires d > 0
    ensures x == 0 ==> RoundDiv(s1 * d + x * (s2 - s1), d) == s1
    ensures x == d ==> RoundDiv(s1 * d + x * (s2 - s1), d) == s2
  {
    if x == 0 {
      assert s1 * d + x * (s2 - s1) == s1 * d;
      RoundDivExact(s1, d);
    }
    if x == d {
      assert s1 * d + x * (s2 - s1) == s2 * d;
      RoundDivExact(s2, d);
    }
  }

  lemma LerpBounds(d: int, s1: int, s2: int, x: int)
    requires d > 0
    ensures 0 <= x <= d ==> var n := s1 * d + x * (s2 - s1);
      Min(s1, s2) <= RoundDiv(n, d) <= Max(s1, s2)
  {
    if 0 <= x <= d {
      var n := s1 * d + x * (s2 - s1);
      if s1 == s2 {
        assert n == d * s1;
        RoundDivBounds(n, d, s1, s1);
      } else if s1 < s2 {
        MulMonotone(s2 - s1, x, d);
        assert 0 <= x * (s2 - s1);
        assert d * s1 <= n <= d * s2;
        RoundDivBounds(n, d, s1, s2);
      } else {
        MulMonotone(s1 - s2, x, d);
        assert 0 <= x * (s1 - s2);
        assert d * s2 <= n <= d * s1;
        RoundDivBounds(n, d, s2, s1);
      }
    }
  }

  /** The table entry for one age, as the scoring builds it: the first score before the first
      anchor, the last score after the last anchor, the anchor's own score at an anchor found by
      the search, and the rounded line in between. */
  function TableValue(a: seq<AnchorPoint>, age: int): (v: int)
    requires |a| > 0
    ensures age < a[0].age ==> v == a[0].score
    ensures a[0].age <= age && age > a[|a| - 1].age ==> v == a[|a| - 1].score
  {
    if age < a[0].age then a[0].score
    else if age > a[|a| - 1].age then a[|a| - 1].score
    else
      var i := Scan(a, age, 0);
      if a[i].age == age then a[i].score
      else
        assert i > 0 ==> a[i].age <= age;
        Lerp(a[i].age, a[i].score, a[i + 1].age, a[i + 1].score, age)
  }

  /** `interpolateGraph`: the table of curve values for every whole age from 0 to `maxAge`;
      empty when there are no anchors. */
  function InterpolateGraph(a: seq<AnchorPoint>, maxAge: int): (t: map<int, int>)
    ensures |a| == 0 ==> t == map[]
    ensures |a| > 0 ==> forall age :: age in t <==> 0 <= age <= maxAge
    ensures |a| > 0 ==> forall age :: age in t && age < a[0].age ==> t[age] == a[0].score
    ensures |a| > 0 ==> forall age :: age in t && a[0].age <= age && age > a[|a| - 1].age ==> t[age] == a[|a| - 1].score
  {
    if |a| == 0 then map[] else map age: int | 0 <= age <= maxAge :: TableValue(a, age)
  }

  /** On ordered anchors the table holds each anchor's own score at the anchor's age. */
  lemma TableHitsAnchors(a: seq<AnchorPoint>, maxAge: int, k: nat)
    requires StrictlySorted(a) && k < |a| && 0 <= a[k].age <= maxAge
    ensures InterpolateGraph(a, maxAge)[a[k].age] == a[k].score
  {
    var age := a[k].age;
    if k + 1 < |a| {
      ScanFindsSegment(a, age, k);
    }
  }

  /** On ordered anchors the table value strictly between two neighbouring anchors is the
      rounded line through them, and lies between their scores. */
  lemma TableBetweenAnchors(a: seq<AnchorPoint>, maxAge: int, k: nat, age: int)
    requires StrictlySorted(a) && k + 1 < |a| && a[k].age < age < a[k + 1].age && 0 <= age <= maxAge
    ensures InterpolateGraph(a, maxAge)[age] == Lerp(a[k].age, a[k].score, a[k + 1].age, a[k + 1].score, age)
    ensures Min(a[k].score, a[k + 1].score) <= InterpolateGraph(a, maxAge)[age] <= Max(a[k].score, a[k + 1].score)
  {
    ScanFindsSegment(a, age, k);
    assert a[0].age <= a[k].age && a[k + 1].age <= a[|a| - 1].age;
  }

  /** `sortedPoints`: the anchors ordered by age, stably. */
  function SortedPoints(a: seq<AnchorPoint>): (r: seq<AnchorPoint>)
    ensures multiset(r) == multiset(a)
    ensures forall i, j :: 0 <= i < j < |r| ==> r[i].age <= r[j].age
  {
    SortByKey(a, AgeOf)
  }

  /** `interpolateScore` over already ordered points: 0 for fewer than two points, the end scores
      at or beyond the ends, and otherwise the rounded line over the segment the search finds. */
  function InterpolateScore(p: seq<AnchorPoint>, age: int): (v: int)
    requires forall i, j :: 0 <= i < j < |p| ==> p[i].age <= p[j].age
    ensures |p| < 2 ==> v == 0
    ensures |p| >= 2 && age <= p[0].age ==> v == p[0].score
    ensures |p| >= 2 && p[0].age < age && age >= p[|p| - 1].age ==> v == p[|p| - 1].score
    ensures |p| >= 2 && p[0].age < age < p[|p| - 1].age ==>
      exists i :: 0 <= i < |p| - 1 && p[i].age <= age < p[i + 1].age
        && Min(p[i].score, p[i + 1].score) <= v <= Max(p[i].score, p[i + 1].score)
        && (age == p[i].age ==> v == p[i].score)
  {
    if |p| < 2 then 0
    else if age <= p[0].age then p[0].score
    else if age >= p[|p| - 1].age then p[|p| - 1].score
    else
      var i := Scan(p, age, 0);
      assert i > 0 ==> p[i].age <= age;
      Lerp(p[i].age, p[i].score, p[i + 1].age, p[i + 1].score, age)
  }

  /** The graph's lookup for a raw anchor list: sort, then interpolate. */
  function GraphScore(anchors: seq<AnchorPoint>, age: int): int {
    InterpolateScore(SortedPoints(anchors), age)
  }

  /** On at least two ordered anchors the graph's lookup and the scoring table agree at every age
      from 0 to `maxAge`. */
  lemma GraphAgreesWithTable(a: seq<AnchorPoint>, maxAge: int, age: int)
    requires |a| >= 2 && StrictlySorted(a) && 0 <= age <= maxAge
    ensures GraphScore(a, age) == InterpolateGraph(a, maxAge)[age]
  {
    assert SortedByKey(a, AgeOf) by {
      forall i, j | 0 <= i < j < |a| ensures AgeOf(a[i]) <= AgeOf(a[j]) {
        assert a[i].age < a[j].age;
      }
    }
    SortSortedIsIdentity(a, AgeOf);
    assert GraphScore(a, age) == InterpolateScore(a, age);
    var last := |a| - 1;
    if age <= a[0].age {
      if age == a[0].age {
        TableHitsAnchors(a, maxAge, 0);
      }
    } else if age >= a[last].age {
      if age == a[last].age {
        TableHitsAnchors(a, maxAge, last);
      }
    } else {
      LookupInside(a, maxAge, age);
    }
  }

  lemma LookupInside(a: seq<AnchorPoint>, maxAge: int, age: int)
    requires |a| >= 2 && StrictlySorted(a) && 0 <= age <= maxAge && a[0].age < age < a[|a| - 1].age
    ensures InterpolateScore(a, age) == InterpolateGraph(a, maxAge)[age]
  {
    var i := Scan(a, age, 0);
    assert i > 0 ==> a[i].age <= age;
    LookupOnSegment(a, age, i);
    if a[i].age == age {
      TableHitsAnchors(a, maxAge, i);
    } else {
      TableBetweenAnchors(a, maxAge, i, age);
    }
  }

  /** Strictly inside the curve the graph's lookup is the rounded line of the segment holding
      `age`. */
  lemma LookupOnSegment(a: seq<AnchorPoint>, age: int, k: nat)
    requires StrictlySorted(a) && k + 1 < |a| && a[k].age <= age < a[k + 1].age && a[0].age < age
    ensures InterpolateScore(a, age) == Lerp(a[k].age, a[k].score, a[k + 1].age, a[k + 1].score, age)
  {
    ScanFindsSegment(a, age, k);
    assert a[k + 1].age <= a[|a| - 1].age;
  }

  /** The curve `[(0,50), (40,80), (100,20)]` on a 100-year axis: its anchor at 40, the rounded
      midpoint 65 at age 20, and 50 at age 70, and the graph lookup gives the same values. */
  lemma CurveExample()
    ensures var a := [AnchorPoint(0, 50), AnchorPoint(40, 80), AnchorPoint(100, 20)];
      var t := InterpolateGraph(a, 100);
      && t[40] == 80 && t[20] == 65 && t[70] == 50
      && GraphScore(a, 40) == 80 && GraphScore(a, 20) == 65 && GraphScore(a, 70) == 50
  {
    var a := [AnchorPoint(0, 50), AnchorPoint(40, 80), AnchorPoint(100, 20)];
    CurveExampleTable();
    assert StrictlySorted(a);
    GraphAgreesWithTable(a, 100, 40);
    GraphAgreesWithTable(a, 100, 20);
    GraphAgreesWithTable(a, 100, 70);
  }

  lemma CurveExampleTable()
    ensures var t := InterpolateGraph([AnchorPoint(0, 50), AnchorPoint(40, 80), AnchorPoint(100, 20)], 100);
      t[40] == 80 && t[20] == 65 && t[70] == 50
  {
    var a := [AnchorPoint(0, 50), AnchorPoint(40, 80), AnchorPoint(100, 20)];
    assert StrictlySorted(a);
    TableHitsAnchors(a, 100, 1);
    TableBetweenAnchors(a, 100, 0, 20);
    TableBetweenAnchors(a, 100, 1, 70);
    RoundDivExact(65, 40);
    assert 50 * 40 + 20 * 30 == 65 * 40;
    RoundDivExact(50, 60);
    assert 80 * 60 + 30 * -60 == 50 * 60;
  }

  /** The click clamp: age into `[0, maxAge]`, score into `[0, 100]`; values already in range
      are kept. */
  function ClampClick(maxAge: int, age: int, score: int): (p: AnchorPoint)
    ensures 0 <= p.age && (maxAge >= 0 ==> p.age <= maxAge)
    ensures 0 <= p.score <= 100
    ensures 0 <= age <= maxAge ==> p.age == age
    ensures 0 <= score <= 100 ==> p.score == score
  {
    AnchorPoint(Max(0, Min(maxAge, age)), Max(0, Min(100, score)))
  }

  /** Spacing of the age labels: every year up to 30, every 5 up to 60, every 10 beyond. */
  function LabelInterval(maxAge: int): (k: int)
    ensures k == 1 || k == 5 || k == 10
    ensures maxAge <= 30 <==> k == 1
    ensures 30 < maxAge <= 60 <==> k == 5
  {
    if maxAge <= 30 then 1 else if maxAge <= 60 then 5 else 10
  }

  /** An age gets a label when it is a multiple of the spacing or the last age. */
  predicate IsLabelAge(maxAge: int, age: int) {
    age % LabelInterval(maxAge) == 0 || age == maxAge
  }

  /** Both ends are labelled, and every stretch of `LabelInterval` consecutive ages inside the
      axis holds a label. */
  lemma LabelsCoverAxis(maxAge: int, age: int)
    requires 0 <= age <= maxAge
    ensures IsLabelAge(maxAge, 0) && IsLabelAge(maxAge, maxAge)
    ensures exists l :: age <= l < age + LabelInterval(maxAge) && l <= maxAge && IsLabelAge(maxAge, l)
  {
    var k := LabelInterval(maxAge);
    var m := age + (k - age % k) % k;
    assert m % k == 0;
    if m <= maxAge {
      assert IsLabelAge(maxAge, m);
    } else {
      assert IsLabelAge(maxAge, maxAge);
    }
  }
}
