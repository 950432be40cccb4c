/** Sums of real amounts over maps and sequences, with the facts the balance proofs use:
    how a map update changes the sum, and that a sequence sum does not depend on order. */
module Sums {

  /** Some key of a non-empty map. */
  ghost function Pick<K>(m: map<K, real>): (k: K)
    requires |m| > 0
    ensures k in m
  {
    var k :| k in m; k
  }

  /** The sum of the values of a finite map. */
  ghost function SumMap<K>(m: map<K, real>): real
    decreases |m|
  {
    if |m| == 0 then 0.0
    else
      var k := Pick(m);
      assert |m - {k}| < |m| by { MapRemoveCard(m, k); }
      m[k] + SumMap(m - {k})
  }

  lemma MapRemoveCard<K>(m: map<K, real>, k: K)
    requires k in m
    ensures |m - {k}| == |m| - 1
  {
    assert (m - {k}).Keys == m.Keys - {k};
    assert |m.Keys - {k}| == |m.Keys| - 1;
  }

  /** Any key can be taken out first. */
  lemma {:induction false} SumMapRemove<K>(m: map<K, real>, k: K)
    requires k in m
    ensures SumMap(m) == m[k] + SumMap(m - {k})
    decreases |m|
  {
    MapRemoveCard(m, k);
    var j := Pick(m);
    if j != k {
      var mj, mk := m - {j}, m - {k};
      MapRemoveCard(m, j);
      assert k in mj && j in mk && mj[k] == m[k] && mk[j] == m[j];
      SumMapRemove(mj, k);
      SumMapRemove(mk, j);
      assert mj - {k} == mk - {j};
    }
  }

  /** Setting key `k` to `v` changes the sum by `v` minus the old value (none if absent). */
  lemma SumMapUpdate<K>(m: map<K, real>, k: K, v: real)
    ensures SumMap(m[k := v]) == SumMap(m) - (if k in m then m[k] else 0.0) + v
  {
    SumMapRemove(m[k := v], k);
    assert m[k := v] - {k} == m - {k};
    if k in m {
      SumMapRemove(m, k);
    } else {
      assert m - {k} == m;
    }
  }

  /** Adding `a` to an entry adds `a` to the sum. */
  lemma SumMapAdd<K>(m: map<K, real>, k: K, a: real)
    requires k in m
    ensures SumMap(m[k := m[k] + a]) == SumMap(m) + a
  {
    SumMapUpdate(m, k, m[k] + a);
  }

  /** Taking `a` from an entry, opened at zero when absent, takes `a` from the sum. */
  lemma SumMapTake<K>(m: map<K, real>, k: K, a: real, v: real)
    requires v == (if k in m then m[k] else 0.0) - a
    ensures SumMap(m[k := v]) == SumMap(m) - a
  {
    SumMapUpdate(m, k, v);
  }

  /** A map whose values are all zero sums to zero. */
  lemma {:induction false} SumMapZero<K>(m: map<K, real>)
    requires forall k :: k in m ==> m[k] == 0.0
    ensures SumMap(m) == 0.0
    decreases |m|
  {
    if |m| > 0 {
      var k :| k in m;
      MapRemoveCard(m, k);
      SumMapRemove(m, k);
      SumMapZero(m - {k});
    }
  }

  /** The sum of `f` over a sequence, accumulated left to right. */
  function SumOf<T>(xs: seq<T>, f: T -> real): real
  {
    if xs == [] then 0.0 else SumOf(xs[..|xs| - 1], f) + f(xs[|xs| - 1])
  }

  lemma {:induction false} SumOfAppend<T>(a: seq<T>, b: seq<T>, f: T -> real)
    ensures SumOf(a + b, f) == SumOf(a, f) + SumOf(b, f)
  {
    if b == [] {
      assert a + b == a;
    } else {
      assert (a + b)[..|a + b| - 1] == a + b[..|b| - 1];
      SumOfAppend(a, b[..|b| - 1], f);
    }
  }

  /** A sequence sum does not depend on the order of the elements. */
  lemma {:induction false} SumOfPermutation<T>(xs: seq<T>, ys: seq<T>, f: T -> real)
    requires multiset(xs) == multiset(ys)
    ensures SumOf(xs, f) == SumOf(ys, f)
    decreases |xs|
  {
    if xs == [] {
      assert |ys| == |multiset(ys)| == 0;
    } else {
      var init, x := xs[..|xs| - 1], xs[|xs| - 1];
      assert xs == init + [x];
      assert x in multiset(ys);
      var i :| 0 <= i < |ys| && ys[i] == x;
      var pre, post := ys[..i], ys[i + 1..];
      var rest := pre + post;
      assert ys == pre + ([x] + post);
      MultisetRemoveAt(ys, i);
      MultisetCancel(multiset(init), multiset(rest), x);
      SumOfPermutation(init, rest, f);
      SumOfAppend(pre, [x] + post, f);
      SumOfAppend([x], post, f);
      SumOfAppend(pre, post, f);
      assert SumOf([x], f) == f(x) by {
        assert [x][..0] == [];
      }
    }
  }

  lemma MultisetRemoveAt<T>(ys: seq<T>, i: nat)
    requires i < |ys|
    ensures multiset(ys) == multiset(ys[..i] + ys[i + 1..]) + multiset{ys[i]}
  {
    assert ys == ys[..i] + [ys[i]] + ys[i + 1..];
  }

  lemma MultisetCancel<T>(a: multiset<T>, b: multiset<T>, x: T)
    requires a + multiset{x} == b + multiset{x}
    ensures a == b
  {
    assert forall y :: a[y] == (a + multiset{x})[y] - multiset{x}[y];
    assert forall y :: b[y] == (b + multiset{x})[y] - multiset{x}[y];
  }
}
