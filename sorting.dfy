/** The stable sort that `Array.prototype.sort` performs with a comparator of the
    form `(a, b) => key(b) - key(a)`: descending by an integer key, ties kept in
    their original order. `SortDesc` specifies it as an insertion sort on
    sequences; `InsertionSortDesc` performs it in place on an array. */
module Sorting {
  import opened Seqs

  ghost predicate SortedDesc<T>(s: seq<T>, key: T -> int)
  {
    forall i, j :: 0 <= i < j < |s| ==> key(s[i]) >= key(s[j])
  }

  /** `x` placed after every element of `t` whose key is at least its own. */
  function InsertDesc<T>(t: seq<T>, x: T, key: T -> int): (r: seq<T>)
    ensures multiset(r) == multiset(t) + multiset{x}
  {
    if t == [] then [x]
    else if key(t[0]) < key(x) then [x] + t
    else
      assert t == [t[0]] + t[1..];
      [t[0]] + InsertDesc(t[1..], x, key)
  }

  /** Elements taken left to right, each inserted into the sorted result so far. */
  function SortDesc<T>(s: seq<T>, key: T -> int): (r: seq<T>)
    ensures multiset(r) == multiset(s)
    decreases |s|
  {
    if s == [] then []
    else
      assert s == s[..|s| - 1] + [s[|s| - 1]];
      InsertDesc(SortDesc(s[..|s| - 1], key), s[|s| - 1], key)
  }

  lemma {:induction false} InsertDescSorted<T>(t: seq<T>, x: T, key: T -> int)
    requires SortedDesc(t, key)
    ensures SortedDesc(InsertDesc(t, x, key), key)
  {
    if t != [] && key(t[0]) >= key(x) {
      InsertDescSorted(t[1..], x, key);
      var rest := InsertDesc(t[1..], x, key);
      forall e | e in rest
        ensures key(t[0]) >= key(e)
      {
        assert e in multiset(rest);
      }
    }
  }

  /** The result of `SortDesc` is ordered by descending key. */
  lemma {:induction false} SortDescSorted<T>(s: seq<T>, key: T -> int)
    ensures SortedDesc(SortDesc(s, key), key)
    decreases |s|
  {
    if s != [] {
      SortDescSorted(s[..|s| - 1], key);
      InsertDescSorted(SortDesc(s[..|s| - 1], key), s[|s| - 1], key);
    }
  }

  function KeyIs<T>(key: T -> int, k: int): T -> bool
  {
    (x: T) => key(x) == k
  }

  lemma {:induction false} InsertDescStable<T>(t: seq<T>, x: T, key: T -> int, k: int)
    requires SortedDesc(t, key)
    ensures Filter(InsertDesc(t, x, key), KeyIs(key, k)) ==
            Filter(t, KeyIs(key, k)) + (if key(x) == k then [x] else [])
  {
    var p := KeyIs(key, k);
    if t == [] {
    } else if key(t[0]) < key(x) {
      assert ([x] + t)[1..] == t;
      if key(x) == k {
        FilterNone(t, p);
      }
    } else {
      assert ([t[0]] + InsertDesc(t[1..], x, key))[1..] == InsertDesc(t[1..], x, key);
      InsertDescStable(t[1..], x, key, k);
    }
  }

  /** Stability: for each key value, the elements carrying it keep their relative order. */
  lemma {:induction false} SortDescStable<T>(s: seq<T>, key: T -> int, k: int)
    ensures Filter(SortDesc(s, key), KeyIs(key, k)) == Filter(s, KeyIs(key, k))
    decreases |s|
  {
    if s != [] {
      var p := KeyIs(key, k);
      var init, last := s[..|s| - 1], s[|s| - 1];
      assert s == init + [last];
      var sortedInit := SortDesc(init, key);
      assert SortDesc(s, key) == InsertDesc(sortedInit, last, key);
      SortDescStable(init, key, k);
      SortDescSorted(init, key);
      InsertDescStable(sortedInit, last, key, k);
      assert Filter(SortDesc(s, key), p) == Filter(init, p) + (if key(last) == k then [last] else []);
      FilterAppend(init, [last], p);
      assert Filter([last], p) == (if key(last) == k then [last] else []) by {
        assert [last][1..] == [];
      }
    }
  }

  /** Putting `x` back between the head and the splice of the tail. */
  lemma ConsSplice<T>(t: seq<T>, x: T, j: int)
    requires 0 < j <= |t|
    ensures [t[0]] + (t[1..][..j - 1] + [x] + t[1..][j - 1..]) == t[..j] + [x] + t[j..]
  {
    assert t[..j] == [t[0]] + t[1..][..j - 1];
    assert t[j..] == t[1..][j - 1..];
  }

  /** Where `InsertDesc` puts `x`: right after the elements whose key is at least its own. */
  lemma {:induction false} InsertDescAt<T>(t: seq<T>, x: T, key: T -> int, j: int)
    requires 0 <= j <= |t|
    requires forall m :: 0 <= m < j ==> key(t[m]) >= key(x)
    requires forall m :: j <= m < |t| ==> key(t[m]) < key(x)
    ensures InsertDesc(t, x, key) == t[..j] + [x] + t[j..]
    decreases j
  {
    if j == 0 {
      assert t[..0] == [] && t[0..] == t;
      if t != [] {
        assert key(t[0]) < key(x);
      }
    } else {
      var rest := t[1..];
      assert key(t[0]) >= key(x);
      assert forall m :: 0 <= m < j - 1 ==> key(rest[m]) >= key(x) by {
        forall m | 0 <= m < j - 1 ensures key(rest[m]) >= key(x) {
          assert rest[m] == t[m + 1];
        }
      }
      assert forall m :: j - 1 <= m < |rest| ==> key(rest[m]) < key(x) by {
        forall m | j - 1 <= m < |rest| ensures key(rest[m]) < key(x) {
          assert rest[m] == t[m + 1];
        }
      }
      InsertDescAt(rest, x, key, j - 1);
      ConsSplice(t, x, j);
    }
  }

  /** A sequence that agrees with the splice at every position of its first `i + 1` elements. */
  lemma SplicedPrefix<T>(c: seq<T>, t: seq<T>, x: T, j: int)
    requires 0 <= j <= |t| < |c|
    requires forall m :: 0 <= m < j ==> c[m] == t[m]
    requires c[j] == x
    requires forall m :: j < m <= |t| ==> c[m] == t[m - 1]
    ensures c[..|t| + 1] == t[..j] + [x] + t[j..]
  {
  }

  /** Moves the elements of `a[..i]` whose key is below `key(x)`, a trailing run, one place
      right, and returns the gap left in front of them. */
  method ShiftRight<T>(a: array<T>, i: int, x: T, key: T -> int) returns (j: int)
    requires 0 <= i < a.Length
    modifies a
    ensures 0 <= j <= i
    ensures forall m :: 0 <= m < j ==> a[m] == old(a[m])
    ensures forall m :: j < m <= i ==> a[m] == old(a[m - 1])
    ensures forall m :: i < m < a.Length ==> a[m] == old(a[m])
    ensures forall m :: j <= m < i ==> key(old(a[m])) < key(x)
    ensures j > 0 ==> key(old(a[j - 1])) >= key(x)
  {
    ghost var s := a[..];
    j := i;
    while j > 0 && key(a[j - 1]) < key(x)
      invariant 0 <= j <= i
      invariant forall m :: 0 <= m < j ==> a[m] == s[m]
      invariant forall m :: j < m <= i ==> a[m] == s[m - 1]
      invariant forall m :: i < m < a.Length ==> a[m] == s[m]
      invariant forall m :: j <= m < i ==> key(s[m]) < key(x)
    {
      a[j] := a[j - 1];
      j := j - 1;
    }
  }

  /** One step of insertion sort: `a[i]` is moved left into the sorted prefix `a[..i]`. */
  method InsertAt<T>(a: array<T>, i: int, key: T -> int)
    requires 0 <= i < a.Length
    requires SortedDesc(a[..i], key)
    modifies a
    ensures a[..i + 1] == InsertDesc(old(a[..i]), old(a[i]), key)
    ensures forall m :: i < m < a.Length ==> a[m] == old(a[m])
  {
    ghost var sorted := a[..i];
    var x := a[i];
    var j := ShiftRight(a, i, x, key);
    assert forall m :: 0 <= m < j ==> key(sorted[m]) >= key(x) by {
      assert SortedDesc(sorted, key);
    }
    InsertDescAt(sorted, x, key, j);
    a[j] := x;
    SplicedPrefix(a[..], sorted, x, j);
  }

  /** Sorting one more element of the input inserts it into the sorted prefix. */
  lemma SortDescStep<T>(s: seq<T>, i: int, key: T -> int)
    requires 0 <= i < |s|
    ensures SortDesc(s[..i + 1], key) == InsertDesc(SortDesc(s[..i], key), s[i], key)
  {
    assert s[..i + 1][..i] == s[..i];
  }

  /** Sorts `a` in place, stably, by descending key. */
  method InsertionSortDesc<T>(a: array<T>, key: T -> int)
    modifies a
    ensures a[..] == SortDesc(old(a[..]), key)
  {
    ghost var s0 := a[..];
    var i := 0;
    while i < a.Length
      invariant 0 <= i <= a.Length
      invariant a[..i] == SortDesc(s0[..i], key)
      invariant forall m :: i <= m < a.Length ==> a[m] == s0[m]
    {
      SortDescSorted(s0[..i], key);
      SortDescStep(s0, i, key);
      InsertAt(a, i, key);
      i := i + 1;
    }
    assert a[..] == a[..a.Length];
    assert s0[..a.Length] == s0;
  }
}
