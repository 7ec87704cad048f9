/** Sums over the values of a Python dict, whose iteration order the model does not fix: a sum over
    a set of keys, proved independent of the order in which the keys are taken. */
module Sums {

  ghost function SumOver<K>(keys: set<K>, f: K -> real): real
  {
    if keys == {} then 0.0 else var k :| k in keys; f(k) + SumOver(keys - {k}, f)
  }

  /** Any key may be taken first: the sum does not depend on the iteration order. */
  lemma {:induction false} SumOverRemove<K>(keys: set<K>, f: K -> real, k: K)
    requires k in keys
    ensures SumOver(keys, f) == f(k) + SumOver(keys - {k}, f)
    decreases |keys|
  {
    var j :| j in keys && SumOver(keys, f) == f(j) + SumOver(keys - {j}, f);
    if j != k {
      SumOverRemove(keys - {j}, f, k);
      SumOverRemove(keys - {k}, f, j);
      assert keys - {j} - {k} == keys - {k} - {j};
    }
  }

  lemma {:induction false} SumOverZero<K>(keys: set<K>, f: K -> real)
    requires forall k :: k in keys ==> f(k) == 0.0
    ensures SumOver(keys, f) == 0.0
    decreases |keys|
  {
    if keys != {} {
      var k :| k in keys && SumOver(keys, f) == f(k) + SumOver(keys - {k}, f);
      SumOverZero(keys - {k}, f);
    }
  }

  lemma {:induction false} SumOverNonNegative<K>(keys: set<K>, f: K -> real)
    requires forall k :: k in keys ==> f(k) >= 0.0
    ensures SumOver(keys, f) >= 0.0
    decreases |keys|
  {
    if keys != {} {
      var k :| k in keys && SumOver(keys, f) == f(k) + SumOver(keys - {k}, f);
      SumOverNonNegative(keys - {k}, f);
    }
  }

  lemma {:induction false} SumOverSame<K>(keys: set<K>, f: K -> real, g: K -> real)
    requires forall k :: k in keys ==> f(k) == g(k)
    ensures SumOver(keys, f) == SumOver(keys, g)
    decreases |keys|
  {
    if keys != {} {
      var k :| k in keys && SumOver(keys, f) == f(k) + SumOver(keys - {k}, f);
      SumOverRemove(keys, g, k);
      SumOverSame(keys - {k}, f, g);
    }
  }

  /** The sum of a pointwise sum is the sum of the two sums. */
  lemma {:induction false} SumOverAdd<K>(keys: set<K>, f: K -> real, g: K -> real, h: K -> real)
    requires forall k :: k in keys ==> h(k) == f(k) + g(k)
    ensures SumOver(keys, h) == SumOver(keys, f) + SumOver(keys, g)
    decreases |keys|
  {
    if keys != {} {
      var k :| k in keys && SumOver(keys, h) == h(k) + SumOver(keys - {k}, h);
      SumOverRemove(keys, f, k);
      SumOverRemove(keys, g, k);
      SumOverAdd(keys - {k}, f, g, h);
    }
  }

  /** The sum of a sequence, built from the front so that a loop can extend it element by element. */
  function SumSeq(s: seq<real>): real
  {
    if s == [] then 0.0 else SumSeq(s[..|s| - 1]) + s[|s| - 1]
  }
}
