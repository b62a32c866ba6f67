/** Sequence searches used throughout the game: the model of `findIndex`, `find` and `some`. */
module Seqs {
  import opened Wrappers

  /** Index of the first element satisfying `p`, or -1 when there is none (`Array.prototype.findIndex`). */
  function FirstIndex<T>(s: seq<T>, p: T -> bool): (k: int)
    ensures -1 <= k < |s|
    ensures k >= 0 ==> p(s[k])
    ensures k >= 0 ==> forall j :: 0 <= j < k ==> !p(s[j])
    ensures k == -1 <==> forall j :: 0 <= j < |s| ==> !p(s[j])
  {
    if |s| == 0 then -1
    else if p(s[0]) then 0
    else
      var k := FirstIndex(s[1..], p);
      assert forall j :: 1 <= j < |s| ==> s[j] == s[1..][j - 1];
      if k == -1 then -1 else k + 1
  }

  /** The first element satisfying `p`, if any (`Array.prototype.find`). */
  function Find<T>(s: seq<T>, p: T -> bool): (r: Option<T>)
    ensures r.None? <==> forall j :: 0 <= j < |s| ==> !p(s[j])
    ensures r.Some? ==> r.value in s && p(r.value)
  {
    var k := FirstIndex(s, p);
    if k == -1 then None else Some(s[k])
  }

  /** The sequence with the element at `i` removed; unchanged when `i` is out of range
      (`filter((_, j) => j !== i)`). */
  function RemoveAt<T>(s: seq<T>, i: int): (r: seq<T>)
    ensures 0 <= i < |s| ==> |r| == |s| - 1
    ensures 0 <= i < |s| ==> forall j :: 0 <= j < |r| ==> r[j] == (if j < i then s[j] else s[j + 1])
    ensures !(0 <= i < |s|) ==> r == s
  {
    if 0 <= i < |s| then s[..i] + s[i + 1..] else s
  }

  /** True when no value occurs twice. */
  predicate NoDuplicates<T(==)>(s: seq<T>) {
    forall i, j :: 0 <= i < j < |s| ==> s[i] != s[j]
  }

  /** The set of values `f` takes on the elements of `s`. */
  function Image<T, U>(s: seq<T>, f: T -> U): (r: set<U>)
    ensures forall i :: 0 <= i < |s| ==> f(s[i]) in r
    ensures forall u :: u in r ==> exists i :: 0 <= i < |s| && f(s[i]) == u
  {
    if |s| == 0 then {} else Image(s[..|s| - 1], f) + {f(s[|s| - 1])}
  }

  /** When `f` tells the elements of `s` apart, its image has one value per element. */
  lemma {:induction false} DistinctImageSize<T, U>(s: seq<T>, f: T -> U)
    requires forall i, j :: 0 <= i < j < |s| ==> f(s[i]) != f(s[j])
    ensures |Image(s, f)| == |s|
  {
    if |s| > 0 {
      var init := s[..|s| - 1];
      DistinctImageSize(init, f);
      var x := f(s[|s| - 1]);
      forall u | u in Image(init, f) ensures u != x {
        var i :| 0 <= i < |init| && f(init[i]) == u;
        assert init[i] == s[i];
      }
    }
  }

  /** A subset as large as its superset is the whole superset. */
  lemma SubsetOfSameSize<U>(a: set<U>, b: set<U>)
    requires a <= b && |a| == |b|
    ensures a == b
  {
    assert a * b == a;
    assert |b - a| == 0;
  }
}
