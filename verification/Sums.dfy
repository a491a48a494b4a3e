/** Sums over sequences of reals and over the entries of finite maps. */
module Sums {

  function SumOf(s: seq<real>, f: real -> real): real {
    if |s| == 0 then 0.0 else SumOf(s[..|s| - 1], f) + f(s[|s| - 1])
  }

  function Identity(x: real): real { x }

  function Total(s: seq<real>): real {
    SumOf(s, Identity)
  }

  lemma {:induction false} SumOfConcat(a: seq<real>, b: seq<real>, f: real -> real)
    ensures SumOf(a + b, f) == SumOf(a, f) + SumOf(b, f)
  {
    if |b| == 0 {
      assert a + b == a;
    } else {
      assert (a + b)[..|a + b| - 1] == a + b[..|b| - 1];
      SumOfConcat(a, b[..|b| - 1], f);
    }
  }

  lemma SumOfOne(x: real, f: real -> real)
    ensures SumOf([x], f) == f(x)
  {
    var s := [x];
    assert s[..|s| - 1] == [];
  }

  /** A sum depends on the contents only, not on their order. */
  lemma {:induction false} SumOfPermutation(a: seq<real>, b: seq<real>, f: real -> real)
    requires multiset(a) == multiset(b)
    ensures SumOf(a, f) == SumOf(b, f)
    decreases |a|
  {
    assert |a| == |multiset(a)| == |multiset(b)| == |b|;
    if |a| > 0 {
      var front, x := a[..|a| - 1], a[|a| - 1];
      assert a == front + [x];
      assert x in multiset(b);
      var i :| 0 <= i < |b| && b[i] == x;
      var left, right := b[..i], b[i + 1..];
      assert b == left + [x] + right;
      WithoutOne(front, left, x, right);
      SumOfPermutation(front, left + right, f);
      SumWithOne(left, x, right, f);
    }
  }

  lemma WithoutOne(front: seq<real>, left: seq<real>, x: real, right: seq<real>)
    requires multiset(front + [x]) == multiset(left + [x] + right)
    ensures multiset(front) == multiset(left + right)
  {
    assert multiset(front + [x]) == multiset(front) + multiset{x};
    assert multiset(left + [x] + right) == multiset(left) + multiset{x} + multiset(right);
    assert multiset(left + right) == multiset(left) + multiset(right) == multiset(left + [x] + right) - multiset{x};
  }

  lemma SumWithOne(left: seq<real>, x: real, right: seq<real>, f: real -> real)
    ensures SumOf(left + [x] + right, f) == SumOf(left + right, f) + f(x)
  {
    SumOfConcat(left + [x], right, f);
    SumOfConcat(left, [x], f);
    SumOfConcat(left, right, f);
    SumOfOne(x, f);
    hide SumOf;
  }

  /** An affine function of one value (`n` is 1), and of the total of `n` values. */
  function Line(b: real, c: real, t: real, n: real): real {
    b * t + c * n
  }

  lemma LineAdds(b: real, c: real, t: real, n: real, y: real)
    ensures Line(b, c, t, n) + Line(b, c, y, 1.0) == Line(b, c, t + y, n + 1.0)
  {
    assert b * (t + y) == b * t + b * y;
    assert c * (n + 1.0) == c * n + c * 1.0;
  }

  lemma LineOfNothing(b: real, c: real)
    ensures Line(b, c, 0.0, 0.0) == 0.0
  {
  }

  /** If `p` is at most an affine function of `g` at every element, so are their sums. */
  lemma {:induction false} SumAtMost(s: seq<real>, p: real -> real, g: real -> real, b: real, c: real)
    requires forall i :: 0 <= i < |s| ==> p(s[i]) <= Line(b, c, g(s[i]), 1.0)
    ensures SumOf(s, p) <= Line(b, c, SumOf(s, g), |s| as real)
  {
    hide Line;
    if |s| == 0 {
      LineOfNothing(b, c);
    } else {
      SumAtMost(s[..|s| - 1], p, g, b, c);
      LineAdds(b, c, SumOf(s[..|s| - 1], g), (|s| - 1) as real, g(s[|s| - 1]));
    }
  }

  lemma {:induction false} SumAtLeast(s: seq<real>, p: real -> real, g: real -> real, b: real, c: real)
    requires forall i :: 0 <= i < |s| ==> Line(b, c, g(s[i]), 1.0) <= p(s[i])
    ensures Line(b, c, SumOf(s, g), |s| as real) <= SumOf(s, p)
  {
    hide Line;
    if |s| == 0 {
      LineOfNothing(b, c);
    } else {
      SumAtLeast(s[..|s| - 1], p, g, b, c);
      LineAdds(b, c, SumOf(s[..|s| - 1], g), (|s| - 1) as real, g(s[|s| - 1]));
    }
  }

  /** The sum of `f` over the values of a map. */
  ghost function MapSum<K, V>(m: map<K, V>, f: V -> int): int
    decreases |m|
  {
    if |m| == 0 then 0
    else
      var k :| k in m;
      assert |m - {k}| < |m| by { MapRemoveSize(m, k); }
      f(m[k]) + MapSum(m - {k}, f)
  }

  lemma MapRemoveSize<K, V>(m: map<K, V>, k: K)
    requires k in m
    ensures |m - {k}| == |m| - 1
  {
    assert (m - {k}).Keys == m.Keys - {k};
    assert |m.Keys - {k}| == |m.Keys| - 1;
  }

  lemma MapSumUnfold<K, V>(m: map<K, V>, f: V -> int) returns (k: K)
    requires |m| > 0
    ensures k in m && MapSum(m, f) == f(m[k]) + MapSum(m - {k}, f)
  {
    k :| k in m && MapSum(m, f) == f(m[k]) + MapSum(m - {k}, f);
  }

  /** Any key can be taken out first. */
  lemma {:induction false} MapSumRemove<K, V>(m: map<K, V>, k: K, f: V -> int)
    requires k in m
    ensures MapSum(m, f) == f(m[k]) + MapSum(m - {k}, f)
    decreases |m|
  {
    var j := MapSumUnfold(m, f);
    if j != k {
      var without := m - {j};
      MapRemoveSize(m, j);
      MapSumRemove(without, k, f);
      MapRemoveSize(m, k);
      MapSumRemove(m - {k}, j, f);
      assert without - {k} == m - {k} - {j};
      assert without[k] == m[k] && (m - {k})[j] == m[j];
    }
  }

  lemma MapSumUpdate<K, V>(m: map<K, V>, k: K, v: V, f: V -> int)
    ensures MapSum(m[k := v], f) == MapSum(m, f) + f(v) - if k in m then f(m[k]) else 0
  {
    MapSumRemove(m[k := v], k, f);
    if k in m {
      MapSumRemove(m, k, f);
      assert m[k := v] - {k} == m - {k};
    } else {
      assert m[k := v] - {k} == m;
    }
  }

  /** Summing two functions entry by entry keeps their order. */
  lemma {:induction false} MapSumBound<K, V>(m: map<K, V>, f: V -> int, g: V -> int)
    requires forall k :: k in m ==> f(m[k]) <= g(m[k])
    ensures MapSum(m, f) <= MapSum(m, g)
    decreases |m|
  {
    if |m| > 0 {
      var k :| k in m;
      MapRemoveSize(m, k);
      MapSumRemove(m, k, f);
      MapSumRemove(m, k, g);
      MapSumBound(m - {k}, f, g);
    }
  }

  /** Maps with the same keys whose entries count the same have the same sum. */
  lemma {:induction false} MapSumSame<K, V>(m: map<K, V>, n: map<K, V>, f: V -> int)
    requires m.Keys == n.Keys && forall k :: k in m ==> f(m[k]) == f(n[k])
    ensures MapSum(m, f) == MapSum(n, f)
    decreases |m|
  {
    assert |m| == |m.Keys| == |n.Keys| == |n|;
    if |m| > 0 {
      var k :| k in m;
      MapRemoveSize(m, k);
      MapSumRemove(m, k, f);
      MapSumRemove(n, k, f);
      MapSumSame(m - {k}, n - {k}, f);
    }
  }

  lemma {:induction false} MapSumOfOnes<K, V>(m: map<K, V>)
    ensures MapSum(m, v => 1) == |m|
    decreases |m|
  {
    if |m| > 0 {
      var k :| k in m;
      MapRemoveSize(m, k);
      MapSumRemove(m, k, v => 1);
      MapSumOfOnes(m - {k});
    }
  }
}
