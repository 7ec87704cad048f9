/** Python's sorted(xs, key=key, reverse=True) on a real-valued key: a stable sort into non-increasing
    key order. Both the mempool's priority order and the by-address transaction listing use it. */
module Sorting {

  /** Puts x in front of the first element whose key is not greater than x's, so that elements
      with x's key that follow x in the input also follow it in the output. */
  function InsertDesc<T>(key: T -> real, x: T, s: seq<T>): seq<T>
  {
    if s == [] then [x]
    else if key(s[0]) <= key(x) then [x] + s
    else [s[0]] + InsertDesc(key, x, s[1..])
  }

  /** sorted(s, key=key, reverse=True), as an insertion sort (see SortDescSorts and SortDescStable). */
  function SortDesc<T>(key: T -> real, s: seq<T>): seq<T>
  {
    if s == [] then [] else InsertDesc(key, s[0], SortDesc(key, s[1..]))
  }

  predicate NonIncreasing<T>(key: T -> real, s: seq<T>)
  {
    forall i, j :: 0 <= i < j < |s| ==> key(s[j]) <= key(s[i])
  }

  /** The elements whose key is v, in their order in s. */
  function WithKey<T>(key: T -> real, v: real, s: seq<T>): seq<T>
  {
    if s == [] then [] else (if key(s[0]) == v then [s[0]] else []) + WithKey(key, v, s[1..])
  }

  /** An upper bound of x and of every element of s bounds every element of a permutation of them. */
  lemma UpperBound<T>(key: T -> real, hi: real, t: seq<T>, s: seq<T>, x: T)
    requires multiset(t) == multiset(s) + multiset{x}
    requires key(x) <= hi && forall i :: 0 <= i < |s| ==> key(s[i]) <= hi
    ensures forall k :: 0 <= k < |t| ==> key(t[k]) <= hi
  {
    forall k | 0 <= k < |t| ensures key(t[k]) <= hi {
      assert t[k] in multiset(t);
      if t[k] != x {
        assert t[k] in multiset(s);
        var j :| 0 <= j < |s| && s[j] == t[k];
      }
    }
  }

  lemma {:induction false} InsertDescPermutes<T>(key: T -> real, x: T, s: seq<T>)
    ensures multiset(InsertDesc(key, x, s)) == multiset(s) + multiset{x}
  {
    if s != [] {
      assert s == [s[0]] + s[1..];
      if key(x) < key(s[0]) {
        InsertDescPermutes(key, x, s[1..]);
      }
    }
  }

  lemma {:induction false} InsertDescSorts<T>(key: T -> real, x: T, s: seq<T>)
    requires NonIncreasing(key, s)
    ensures NonIncreasing(key, InsertDesc(key, x, s))
    ensures multiset(InsertDesc(key, x, s)) == multiset(s) + multiset{x}
  {
    InsertDescPermutes(key, x, s);
    if s != [] && key(x) < key(s[0]) {
      var rest := s[1..];
      InsertDescSorts(key, x, rest);
      InsertDescPermutes(key, x, rest);
      UpperBound(key, key(s[0]), InsertDesc(key, x, rest), rest, x);
    }
  }

  /** The result is in non-increasing key order and is a permutation of the input. */
  lemma {:induction false} SortDescSorts<T>(key: T -> real, s: seq<T>)
    ensures NonIncreasing(key, SortDesc(key, s))
    ensures multiset(SortDesc(key, s)) == multiset(s)
  {
    if s != [] {
      SortDescSorts(key, s[1..]);
      InsertDescSorts(key, s[0], SortDesc(key, s[1..]));
      assert s == [s[0]] + s[1..];
    }
  }

  lemma WithKeyCons<T>(key: T -> real, v: real, y: T, t: seq<T>)
    ensures WithKey(key, v, [y] + t) == (if key(y) == v then [y] else []) + WithKey(key, v, t)
  {
    assert ([y] + t)[1..] == t;
  }

  lemma {:induction false} InsertDescStable<T>(key: T -> real, v: real, x: T, s: seq<T>)
    ensures WithKey(key, v, InsertDesc(key, x, s)) == WithKey(key, v, [x] + s)
  {
    if s != [] && key(x) < key(s[0]) {
      var rest := s[1..];
      InsertDescStable(key, v, x, rest);
      WithKeyCons(key, v, s[0], InsertDesc(key, x, rest));
      WithKeyCons(key, v, x, rest);
      WithKeyCons(key, v, s[0], rest);
      assert s == [s[0]] + rest;
      WithKeyCons(key, v, x, s);
      var hx := if key(x) == v then [x] else [];
      var h0 := if key(s[0]) == v then [s[0]] else [];
      assert hx == [] || h0 == [];
      assert h0 + (hx + WithKey(key, v, rest)) == hx + (h0 + WithKey(key, v, rest));
    }
  }

  /** The sort is stable: the elements of any one key keep their input order. */
  lemma {:induction false} SortDescStable<T>(key: T -> real, v: real, s: seq<T>)
    ensures WithKey(key, v, SortDesc(key, s)) == WithKey(key, v, s)
  {
    if s != [] {
      SortDescStable(key, v, s[1..]);
      InsertDescStable(key, v, s[0], SortDesc(key, s[1..]));
      assert ([s[0]] + SortDesc(key, s[1..]))[1..] == SortDesc(key, s[1..]);
    }
  }
}
