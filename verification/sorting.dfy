/** The stable sort the game uses for anchor points (by age) and for rankings (by points,
    descending): `Array.prototype.sort` with a numeric comparator, which is stable, modelled
    as insertion sort on an integer key. */
module Sorting {

  /** `s` is in non-decreasing `key` order. */
  predicate SortedByKey<T>(s: seq<T>, key: T -> int) {
    forall i, j :: 0 <= i < j < |s| ==> key(s[i]) <= key(s[j])
  }

  /** Inserts `x` into sorted `s` after every element whose key is at most `key(x)`. */
  function InsertByKey<T>(s: seq<T>, x: T, key: T -> int): (r: seq<T>)
    requires SortedByKey(s, key)
    ensures SortedByKey(r, key)
    ensures multiset(r) == multiset(s) + multiset{x}
    ensures |r| == |s| + 1
  {
    if |s| == 0 then [x]
    else if key(s[|s| - 1]) <= key(x) then s + [x]
    else
      var init := s[..|s| - 1];
      var last := s[|s| - 1];
      assert s == init + [last];
      var r' := InsertByKey(init, x, key);
      KeysBounded(r', init, x, key, key(last));
      r' + [last]
  }

  /** Every element of a sequence with the same elements as `init + [x]` has a key at most `bound`
      when `init`'s and `x`'s keys do. */
  lemma KeysBounded<T>(r: seq<T>, init: seq<T>, x: T, key: T -> int, bound: int)
    requires multiset(r) == multiset(init) + multiset{x}
    requires forall i :: 0 <= i < |init| ==> key(init[i]) <= bound
    requires key(x) <= bound
    ensures forall i :: 0 <= i < |r| ==> key(r[i]) <= bound
  {
    forall i | 0 <= i < |r| ensures key(r[i]) <= bound {
      assert r[i] in multiset(r);
      if r[i] != x {
        assert r[i] in multiset(init);
        var k :| 0 <= k < |init| && init[k] == r[i];
      }
    }
  }

  /** Stable sort of `s` by `key`. */
  function SortByKey<T>(s: seq<T>, key: T -> int): (r: seq<T>)
    ensures SortedByKey(r, key)
    ensures multiset(r) == multiset(s)
    ensures |r| == |s|
  {
    if |s| == 0 then []
    else
      assert s == s[..|s| - 1] + [s[|s| - 1]];
      InsertByKey(SortByKey(s[..|s| - 1], key), s[|s| - 1], key)
  }

  /** Sorting an already sorted sequence leaves it as it is: the sort is stable. */
  lemma {:induction false} SortSortedIsIdentity<T>(s: seq<T>, key: T -> int)
    requires SortedByKey(s, key)
    ensures SortByKey(s, key) == s
  {
    if |s| > 0 {
      var init := s[..|s| - 1];
      var last := s[|s| - 1];
      SortedPrefix(s, key);
      assert SortByKey(s, key) == InsertByKey(SortByKey(init, key), last, key);
      SortSortedIsIdentity(init, key);
      if |init| > 0 {
        assert key(init[|init| - 1]) <= key(last) by {
          assert init[|init| - 1] == s[|s| - 2];
        }
      }
      InsertAtEnd(init, last, key);
      assert s == init + [last];
    }
  }

  /** An element whose key is at least the last key goes at the end. */
  lemma InsertAtEnd<T>(s: seq<T>, x: T, key: T -> int)
    requires SortedByKey(s, key) && (|s| == 0 || key(s[|s| - 1]) <= key(x))
    ensures InsertByKey(s, x, key) == s + [x]
  {
  }

  lemma SortedPrefix<T>(s: seq<T>, key: T -> int)
    requires SortedByKey(s, key) && |s| > 0
    ensures SortedByKey(s[..|s| - 1], key)
  {
    var init := s[..|s| - 1];
    forall i, j | 0 <= i < j < |init| ensures key(init[i]) <= key(init[j]) {
      assert init[i] == s[i] && init[j] == s[j];
    }
  }

  /** `s` is in increasing `key` order: sorted, and no key occurs twice. */
  predicate StrictlySortedByKey<T>(s: seq<T>, key: T -> int) {
    forall i, j :: 0 <= i < j < |s| ==> key(s[i]) < key(s[j])
  }

  /** Sorting a sorted sequence with one element appended inserts that element. */
  lemma SortAppendIsInsert<T>(s: seq<T>, x: T, key: T -> int)
    requires SortedByKey(s, key)
    ensures SortByKey(s + [x], key) == InsertByKey(s, x, key)
  {
    assert (s + [x])[..|s|] == s;
    SortSortedIsIdentity(s, key);
  }

  /** Inserting an element whose key is new into an increasing sequence keeps it increasing. */
  lemma {:induction false} InsertKeepsStrict<T>(s: seq<T>, x: T, key: T -> int)
    requires StrictlySortedByKey(s, key)
    requires forall i :: 0 <= i < |s| ==> key(s[i]) != key(x)
    ensures StrictlySortedByKey(InsertByKey(s, x, key), key)
  {
    if |s| > 0 && key(s[|s| - 1]) > key(x) {
      var init := s[..|s| - 1];
      var last := s[|s| - 1];
      assert s == init + [last];
      InsertKeepsStrict(init, x, key);
      var r' := InsertByKey(init, x, key);
      KeysBounded(r', init, x, key, key(last) - 1);
      assert InsertByKey(s, x, key) == r' + [last];
    }
  }
  /** The elements of `s` whose key is `k`, in their order in `s`. */
  function KeyRun<T>(s: seq<T>, key: T -> int, k: int): seq<T> {
    if |s| == 0 then [] else (if key(s[0]) == k then [s[0]] else []) + KeyRun(s[1..], key, k)
  }

  lemma {:induction false} KeyRunAppend<T>(a: seq<T>, b: seq<T>, key: T -> int, k: int)
    ensures KeyRun(a + b, key, k) == KeyRun(a, key, k) + KeyRun(b, key, k)
  {
    if |a| == 0 {
      assert a + b == b;
    } else {
      var ab := a + b;
      assert ab[0] == a[0] && ab[1..] == a[1..] + b;
      KeyRunAppend(a[1..], b, key, k);
      var head := if key(a[0]) == k then [a[0]] else [];
      assert KeyRun(ab, key, k) == head + KeyRun(a[1..] + b, key, k);
      assert KeyRun(a, key, k) == head + KeyRun(a[1..], key, k);
    }
  }

  lemma KeyRunSingle<T>(x: T, key: T -> int, k: int)
    ensures KeyRun([x], key, k) == if key(x) == k then [x] else []
  {
    assert [x][1..] == [];
  }

  /** An element and one with a larger key never share a run, so their runs commute. */
  lemma RunsCommute<T>(x: T, last: T, key: T -> int, k: int)
    requires key(x) < key(last)
    ensures KeyRun([x], key, k) + KeyRun([last], key, k) == KeyRun([last], key, k) + KeyRun([x], key, k)
  {
    KeyRunSingle(x, key, k);
    KeyRunSingle(last, key, k);
  }

  /** Insertion puts the new element after every element with the same key. */
  lemma {:induction false} InsertKeepsRuns<T>(s: seq<T>, x: T, key: T -> int, k: int)
    requires SortedByKey(s, key)
    ensures KeyRun(InsertByKey(s, x, key), key, k) == KeyRun(s, key, k) + KeyRun([x], key, k)
  {
    if |s| == 0 {
      assert InsertByKey(s, x, key) == [x];
      assert KeyRun(s, key, k) == [];
    } else if key(s[|s| - 1]) <= key(x) {
      assert InsertByKey(s, x, key) == s + [x];
      KeyRunAppend(s, [x], key, k);
    } else {
      var init := s[..|s| - 1];
      var last := s[|s| - 1];
      assert s == init + [last];
      SortedPrefix(s, key);
      var r' := InsertByKey(init, x, key);
      assert InsertByKey(s, x, key) == r' + [last];
      InsertKeepsRuns(init, x, key, k);
      KeyRunAppend(r', [last], key, k);
      KeyRunAppend(init, [last], key, k);
      RunsCommute(x, last, key, k);
      var ri, rl, rx := KeyRun(init, key, k), KeyRun([last], key, k), KeyRun([x], key, k);
      calc {
        KeyRun(InsertByKey(s, x, key), key, k);
        (ri + rx) + rl;
        { assert rx + rl == rl + rx; }
        (ri + rl) + rx;
      }
    }
  }

  /** The sort is stable: for every key, the elements carrying it appear in the result in the
      order they had in the input. */
  lemma {:induction false} SortIsStable<T>(s: seq<T>, key: T -> int, k: int)
    ensures KeyRun(SortByKey(s, key), key, k) == KeyRun(s, key, k)
  {
    if |s| > 0 {
      var init := s[..|s| - 1];
      var last := s[|s| - 1];
      assert s == init + [last];
      SortIsStable(init, key, k);
      InsertKeepsRuns(SortByKey(init, key), last, key, k);
      KeyRunAppend(init, [last], key, k);
    }
  }
}
