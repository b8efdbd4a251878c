/** Finite sums of reals: over chosen positions of a sequence and over sets, and splitting one by keys. */
module Sums {

  /** The sum of `x[i]` over the positions `i` below `n` that `sel` picks. */
  ghost function SumWhere(x: seq<real>, sel: nat -> bool, n: nat): real
    requires n <= |x|
  {
    if n == 0 then 0.0 else SumWhere(x, sel, n - 1) + (if sel(n - 1) then x[n - 1] else 0.0)
  }

  lemma {:induction false} SumWhereCongruent(x: seq<real>, y: seq<real>, a: nat -> bool, b: nat -> bool, n: nat)
    requires n <= |x| && n <= |y|
    requires forall i :: 0 <= i < n ==> a(i) == b(i) && (a(i) ==> x[i] == y[i])
    ensures SumWhere(x, a, n) == SumWhere(y, b, n)
  {
    if n > 0 { SumWhereCongruent(x, y, a, b, n - 1); }
  }

  predicate ScaledAt(x: seq<real>, y: seq<real>, c: real, i: nat)
    requires i < |x| && i < |y|
  {
    x[i] == c * y[i]
  }

  lemma {:induction false} SumWhereScaled(x: seq<real>, y: seq<real>, sel: nat -> bool, c: real, n: nat)
    requires n <= |x| && n <= |y|
    requires forall i {:trigger ScaledAt(x, y, c, i)} :: 0 <= i < n && sel(i) ==> ScaledAt(x, y, c, i)
    ensures SumWhere(x, sel, n) == c * SumWhere(y, sel, n)
  {
    if n > 0 {
      if sel(n - 1) { assert ScaledAt(x, y, c, n - 1); }
      SumWhereScaled(x, y, sel, c, n - 1);
    }
  }

  ghost function Pick<K(!new)>(S: set<K>): (k: K)
    requires S != {}
    ensures k in S
  {
    var k :| k in S;
    k
  }

  ghost function SumOver<K(!new)>(S: set<K>, f: K -> real): real {
    if S == {} then 0.0 else f(Pick(S)) + SumOver(S - {Pick(S)}, f)
  }

  /** Any member may be taken out first. */
  lemma {:induction false} SumOverTake<K(!new)>(S: set<K>, f: K -> real, k: K)
    requires k in S
    ensures SumOver(S, f) == f(k) + SumOver(S - {k}, f)
    decreases |S|
  {
    var j := Pick(S);
    if j != k {
      SumOverTake(S - {j}, f, k);
      SumOverTake(S - {k}, f, j);
      assert S - {j} - {k} == S - {k} - {j};
    }
  }

  lemma {:induction false} SumOverCongruent<K(!new)>(S: set<K>, f: K -> real, g: K -> real)
    requires forall k :: k in S ==> f(k) == g(k)
    ensures SumOver(S, f) == SumOver(S, g)
    decreases |S|
  {
    if S != {} {
      var k := Pick(S);
      SumOverCongruent(S - {k}, f, g);
    }
  }

  predicate IsScaled<K(!new)>(f: K -> real, g: K -> real, c: real, k: K) { f(k) == c * g(k) }

  lemma {:induction false} SumOverScaled<K(!new)>(S: set<K>, f: K -> real, g: K -> real, c: real)
    requires forall k {:trigger IsScaled(f, g, c, k)} :: k in S ==> IsScaled(f, g, c, k)
    ensures SumOver(S, f) == c * SumOver(S, g)
    decreases |S|
  {
    if S != {} {
      var k := Pick(S);
      assert IsScaled(f, g, c, k);
      SumOverScaled(S - {k}, f, g, c);
    }
  }

  /** Summands that are shares `s / n` of others: the sums, taken down by `s` and by `n`, agree. */
  lemma SumOverShares<K(!new)>(S: set<K>, f: K -> real, g: K -> real, c: real, s: real, n: nat)
    requires n >= 1 && s > 0.0 && c == s / n as real
    requires forall k {:trigger IsScaled(f, g, c, k)} :: k in S ==> IsScaled(f, g, c, k)
    ensures SumOver(S, f) / s == SumOver(S, g) / n as real
  {
    SumOverScaled(S, f, g, c);
    Cancel(s, n as real, SumOver(S, f), SumOver(S, g));
  }

  /** Summands that are `n`-th parts of `d`: together they are `d` times the mean. */
  lemma SumOverParts<K(!new)>(S: set<K>, f: K -> real, g: K -> real, c: real, d: real, n: nat)
    requires n >= 1 && c * n as real == d
    requires forall k {:trigger IsScaled(f, g, c, k)} :: k in S ==> IsScaled(f, g, c, k)
    ensures SumOver(S, f) == d * (SumOver(S, g) / n as real)
  {
    SumOverScaled(S, f, g, c);
    PartOfMean(c, n as real, d, SumOver(S, g));
  }

  lemma PartOfMean(c: real, n: real, d: real, y: real)
    requires n > 0.0 && c * n == d
    ensures c * y == d * (y / n)
  {
    var q := y / n;
    assert y == q * n;
    assert c * (q * n) == (c * n) * q;
  }

  lemma Cancel(s: real, n: real, x: real, y: real)
    requires s > 0.0 && n > 0.0 && x == (s / n) * y
    ensures x / s == y / n
  {
    var q := y / n;
    assert y == q * n;
    assert x == s * q by { assert (s / n) * n == s; }
  }

  lemma {:induction false} SumOverConstant<K(!new)>(S: set<K>, f: K -> real, c: real)
    requires forall k :: k in S ==> f(k) == c
    ensures SumOver(S, f) == c * |S| as real
    decreases |S|
  {
    if S != {} {
      var k := Pick(S);
      SumOverConstant(S - {k}, f, c);
    }
  }

  predicate IsOne<K(!new)>(f: K -> real, k: K) { f(k) == 1.0 }

  /** The mean of ones. */
  lemma MeanOfOnes<K(!new)>(S: set<K>, f: K -> real, n: nat)
    requires n == |S| && n >= 1 && forall k {:trigger IsOne(f, k)} :: k in S ==> IsOne(f, k)
    ensures SumOver(S, f) / n as real == 1.0
  {
    forall k | k in S ensures f(k) == 1.0 { assert IsOne(f, k); }
    SumOverConstant(S, f, 1.0);
  }

  /** Raising one summand raises the sum. */
  lemma SumOverBump<K(!new)>(S: set<K>, f: K -> real, g: K -> real, k: K, d: real)
    requires k in S && g(k) == f(k) + d && forall j :: j in S && j != k ==> g(j) == f(j)
    ensures SumOver(S, g) == SumOver(S, f) + d
  {
    SumOverTake(S, f, k);
    SumOverTake(S, g, k);
    SumOverCongruent(S - {k}, f, g);
  }

  ghost predicate Covers<K(!new)>(S: set<K>, keys: seq<K>, sel: nat -> bool, n: nat)
    requires n <= |keys|
  {
    forall i :: 0 <= i < n && sel(i) ==> keys[i] in S
  }

  /** The picked positions that carry key `k`. */
  ghost function KeySel<K(!new)>(keys: seq<K>, sel: nat -> bool, k: K): nat -> bool {
    (i: nat) => sel(i) && i < |keys| && keys[i] == k
  }

  ghost function KeySum<K(!new)>(x: seq<real>, keys: seq<K>, sel: nat -> bool, n: nat, k: K): real
    requires n <= |x| == |keys|
  {
    SumWhere(x, KeySel(keys, sel, k), n)
  }

  ghost function KeySums<K(!new)>(x: seq<real>, keys: seq<K>, sel: nat -> bool, n: nat): K -> real
    requires n <= |x| == |keys|
  {
    k => KeySum(x, keys, sel, n, k)
  }

  /** A sum splits by key. */
  lemma {:induction false} SplitByKey<K(!new)>(x: seq<real>, keys: seq<K>, sel: nat -> bool, S: set<K>, n: nat)
    requires n <= |x| == |keys| && Covers(S, keys, sel, n)
    ensures SumWhere(x, sel, n) == SumOver(S, KeySums(x, keys, sel, n))
  {
    if n == 0 {
      SumOverConstant(S, KeySums(x, keys, sel, 0), 0.0);
    } else {
      SplitByKey(x, keys, sel, S, n - 1);
      var f, g := KeySums(x, keys, sel, n - 1), KeySums(x, keys, sel, n);
      if sel(n - 1) {
        SumOverBump(S, f, g, keys[n - 1], x[n - 1]);
      } else {
        SumOverCongruent(S, f, g);
      }
    }
  }

  /** Positions that add nothing may be left out. */
  lemma {:induction false} SumWhereDropsZeros(x: seq<real>, a: nat -> bool, b: nat -> bool, n: nat)
    requires n <= |x| && forall i :: 0 <= i < n ==> (b(i) ==> a(i)) && (a(i) && !b(i) ==> x[i] == 0.0)
    ensures SumWhere(x, a, n) == SumWhere(x, b, n)
  {
    if n > 0 { SumWhereDropsZeros(x, a, b, n - 1); }
  }
}
