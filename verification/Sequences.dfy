/** Sequence helpers shared by the weight-transfer models. */
module Sequences {

  function Flatten<T>(xss: seq<seq<T>>): seq<T> {
    if xss == [] then [] else xss[0] + Flatten(xss[1..])
  }

  /** `start` with the first `n` pieces appended one by one. */
  function Joined<T>(start: seq<T>, xss: seq<seq<T>>, n: nat): seq<T>
    requires n <= |xss|
  {
    if n == 0 then start else Joined(start, xss, n - 1) + xss[n - 1]
  }

  lemma {:induction false} JoinedPrefix<T>(start: seq<T>, xss: seq<seq<T>>, xs: seq<T>, n: nat)
    requires n <= |xss|
    ensures Joined(start, xss + [xs], n) == Joined(start, xss, n)
  {
    if n > 0 { JoinedPrefix(start, xss, xs, n - 1); }
  }

  lemma {:induction false} JoinedIsPrefix<T>(start: seq<T>, xss: seq<seq<T>>, n: nat)
    requires n <= |xss|
    ensures Joined(start, xss, n) <= Joined(start, xss, |xss|)
    decreases |xss| - n
  {
    if n < |xss| { JoinedIsPrefix(start, xss, n + 1); }
  }

  lemma JoinedSnoc<T>(start: seq<T>, xss: seq<seq<T>>, xs: seq<T>)
    ensures Joined(start, xss + [xs], |xss| + 1) == Joined(start, xss, |xss|) + xs
  {
    JoinedPrefix(start, xss, xs, |xss|);
  }

  lemma {:induction false} JoinedGoesOn<T>(start: seq<T>, xss: seq<seq<T>>, lo: nat, mid: nat, hi: nat)
    requires lo <= mid <= hi <= |xss|
    ensures Joined(Joined(start, xss, lo), xss[lo..hi], mid - lo) == Joined(start, xss, mid)
  {
    if lo < mid { JoinedGoesOn(start, xss, lo, mid - 1, hi); }
  }

  lemma {:induction false} FlattenAppend<T>(a: seq<seq<T>>, b: seq<seq<T>>)
    ensures Flatten(a + b) == Flatten(a) + Flatten(b)
  {
    if a == [] {
      assert a + b == b;
    } else {
      assert (a + b)[1..] == a[1..] + b;
      FlattenAppend(a[1..], b);
    }
  }

  lemma FlattenSnoc<T>(a: seq<seq<T>>, x: seq<T>)
    ensures Flatten(a + [x]) == Flatten(a) + x
  {
    FlattenAppend(a, [x]);
    assert [x][1..] == [];
    assert Flatten([x]) == x + Flatten<T>([]);
  }
}
