/** Perceptual anchor groups: fingerprints clustered within episode groups so that row order does not matter. */
module AnchorGroups {

  datatype Option<+T> = None | Some(value: T)

  // ----- fingerprints -----

  const TWO64: nat := 0x1_0000_0000_0000_0000
  const TWO63: int := 0x8000_0000_0000_0000

  function Pow2(n: nat): nat { if n == 0 then 1 else 2 * Pow2(n - 1) }

  /** How many of the low `n` bits differ: the bit count of the exclusive or. */
  function DifferingBits(a: nat, b: nat, n: nat): (r: nat)
    ensures r <= n
  {
    if n == 0 then 0 else (if a % 2 != b % 2 then 1 else 0) + DifferingBits(a / 2, b / 2, n - 1)
  }

  /** Both sides masked to 64 bits, as two's complement makes of negative values. */
  function HammingDistance(left: int, right: int): nat { DifferingBits(left % TWO64, right % TWO64, 64) }

  lemma {:induction false} DifferingBitsSymmetric(a: nat, b: nat, n: nat)
    ensures DifferingBits(a, b, n) == DifferingBits(b, a, n)
  {
    if n > 0 { DifferingBitsSymmetric(a / 2, b / 2, n - 1); }
  }

  lemma {:induction false} NoDifferingBitsIff(a: nat, b: nat, n: nat)
    requires a < Pow2(n) && b < Pow2(n)
    ensures DifferingBits(a, b, n) == 0 <==> a == b
  {
    if n > 0 { NoDifferingBitsIff(a / 2, b / 2, n - 1); }
  }

  lemma {:induction false} DifferingBitsTriangle(a: nat, b: nat, c: nat, n: nat)
    ensures DifferingBits(a, c, n) <= DifferingBits(a, b, n) + DifferingBits(b, c, n)
  {
    if n > 0 { DifferingBitsTriangle(a / 2, b / 2, c / 2, n - 1); }
  }

  lemma PowersAgree()
    ensures Pow2(64) == TWO64
  {
    assert Pow2(4) == 16;
    Pow2Add(4, 4);
    Pow2Add(8, 8);
    Pow2Add(16, 16);
    Pow2Add(32, 32);
  }

  lemma {:induction false} Pow2Add(a: nat, b: nat)
    ensures Pow2(a + b) == Pow2(a) * Pow2(b)
  {
    if a > 0 { Pow2Add(a - 1, b); }
  }

  /** On signed 64-bit fingerprints the distance is a metric. */
  lemma HammingIsAMetric(a: int, b: int, c: int)
    requires -TWO63 <= a < TWO63 && -TWO63 <= b < TWO63
    ensures HammingDistance(a, b) == 0 <==> a == b
    ensures HammingDistance(a, b) == HammingDistance(b, a) <= 64
    ensures HammingDistance(a, c) <= HammingDistance(a, b) + HammingDistance(b, c)
  {
    PowersAgree();
    NoDifferingBitsIff(a % TWO64, b % TWO64, 64);
    DifferingBitsSymmetric(a % TWO64, b % TWO64, 64);
    DifferingBitsTriangle(a % TWO64, b % TWO64, c % TWO64, 64);
  }

  /** Bit `i` of a number that is not negative. */
  function Bit(a: nat, i: nat): nat { if i == 0 then a % 2 else Bit(a / 2, i - 1) }

  /** The low `n` bits in which two numbers differ. */
  ghost function DifferingPositions(a: nat, b: nat, n: nat): set<nat> { set i: nat | i < n && Bit(a, i) != Bit(b, i) }

  lemma {:induction false} OneMoreBit(a: nat, b: nat, n: nat)
    ensures DifferingBits(a, b, n + 1) == DifferingBits(a, b, n) + (if Bit(a, n) != Bit(b, n) then 1 else 0)
  {
    if n > 0 { OneMoreBit(a / 2, b / 2, n - 1); }
  }

  lemma {:induction false} DifferingBitsCounts(a: nat, b: nat, n: nat)
    ensures DifferingBits(a, b, n) == |DifferingPositions(a, b, n)|
  {
    if n > 0 {
      DifferingBitsCounts(a, b, n - 1);
      OneMoreBit(a, b, n - 1);
      var before := DifferingPositions(a, b, n - 1);
      assert DifferingPositions(a, b, n) == if Bit(a, n - 1) != Bit(b, n - 1) then before + {n - 1} else before;
    }
  }

  /** The distance is the number of bit positions, of 64, in which the two's complements differ. */
  lemma HammingCountsBits(left: int, right: int)
    ensures HammingDistance(left, right) == |DifferingPositions(left % TWO64, right % TWO64, 64)|
  {
    DifferingBitsCounts(left % TWO64, right % TWO64, 64);
  }

  // ----- signatures -----

  datatype Sig = Sig(coarse: int, detail: Option<int>)

  datatype Limits = Limits(coarse: int, detail: int)

  datatype Distance = Distance(coarse: nat, detail: nat)

  function DistanceOf(a: Sig, b: Sig): Distance {
    Distance(HammingDistance(a.coarse, b.coarse),
      if a.detail.None? || b.detail.None? then 0 else HammingDistance(a.detail.value, b.detail.value))
  }

  /** Equal coarse hashes leave a detail difference of one bit at most. */
  predicate Matches(lim: Limits, a: Sig, b: Sig) {
    var d := DistanceOf(a, b);
    var detailLimit := if d.coarse == 0 && lim.detail > 1 then 1 else lim.detail;
    d.coarse <= lim.coarse && d.detail <= detailLimit
  }

  /** Some distance of two signatures is over its limit; a pair without two details is compared by the coarse hash alone. */
  predicate OverLimit(lim: Limits, a: Sig, b: Sig) {
    || HammingDistance(a.coarse, b.coarse) > lim.coarse
    || (a.detail.Some? && b.detail.Some? && HammingDistance(a.detail.value, b.detail.value) > lim.detail)
    || (a.detail.Some? && b.detail.Some? && HammingDistance(a.coarse, b.coarse) == 0
        && HammingDistance(a.detail.value, b.detail.value) > 1)
  }

  lemma MatchesUnlessOverLimit(lim: Limits, a: Sig, b: Sig)
    requires lim.detail >= 0
    ensures Matches(lim, a, b) <==> !OverLimit(lim, a, b)
  {
  }

  lemma MatchesIsSymmetric(lim: Limits, a: Sig, b: Sig)
    ensures Matches(lim, a, b) == Matches(lim, b, a)
  {
    DifferingBitsSymmetric(a.coarse % TWO64, b.coarse % TWO64, 64);
    if a.detail.Some? && b.detail.Some? {
      DifferingBitsSymmetric(a.detail.value % TWO64, b.detail.value % TWO64, 64);
    }
  }

  lemma {:induction false} SameBits(a: nat, n: nat)
    ensures DifferingBits(a, a, n) == 0
  {
    if n > 0 { SameBits(a / 2, n - 1); }
  }

  lemma MatchesItself(lim: Limits, a: Sig)
    requires lim.coarse >= 0 && lim.detail >= 0
    ensures Matches(lim, a, a)
  {
    SameBits(a.coarse % TWO64, 64);
    if a.detail.Some? { SameBits(a.detail.value % TWO64, 64); }
  }

  /** Tuple order. */
  predicate Closer(a: Distance, b: Distance) { a.coarse < b.coarse || (a.coarse == b.coarse && a.detail < b.detail) }

  /** Not farther, in tuple order: by the coarse distance first, then by the detail distance. */
  predicate NotFarther(a: Distance, b: Distance) { a.coarse < b.coarse || (a.coarse == b.coarse && a.detail <= b.detail) }

  /** The sort key `(coarse, detail is not None, detail or 0)`. */
  predicate Before(a: Sig, b: Sig) {
    var fa, fb := if a.detail.Some? then 1 else 0, if b.detail.Some? then 1 else 0;
    var va, vb := if a.detail.Some? then a.detail.value else 0, if b.detail.Some? then b.detail.value else 0;
    a.coarse < b.coarse || (a.coarse == b.coarse && (fa < fb || (fa == fb && va < vb)))
  }

  /** The key tells any two signatures apart. */
  lemma KeyIsInjective(a: Sig, b: Sig)
    ensures Before(a, b) || Before(b, a) || a == b
    ensures !(Before(a, b) && Before(b, a))
  {
  }

  predicate Ascending(s: seq<Sig>) { forall i, j :: 0 <= i < j < |s| ==> Before(s[i], s[j]) }

  function SetOf(s: seq<Sig>): set<Sig> { set x | x in s }

  /** One order only: ascending sequences with the same members are the same. */
  lemma {:induction false} AscendingIsUnique(a: seq<Sig>, b: seq<Sig>)
    requires Ascending(a) && Ascending(b) && SetOf(a) == SetOf(b)
    ensures a == b
    decreases |a|
  {
    assert a == [] ==> SetOf(a) == {};
    assert b != [] ==> b[0] in SetOf(b);
    if a != [] {
      assert a[0] in SetOf(a) && a[0] in b;
      assert b[0] in SetOf(b) && b[0] in a;
      assert a[0] == b[0];
      SetOfTail(a);
      SetOfTail(b);
      AscendingIsUnique(a[1..], b[1..]);
    }
  }

  /** The order signatures are placed in: by coarse hash, those without a detail first, then by detail. */
  lemma OrderedByKey(S: set<Sig>, i: nat, j: nat)
    requires i < j < |Ordered(S)|
    ensures var (a, b) := (Ordered(S)[i], Ordered(S)[j]);
      && a.coarse <= b.coarse
      && (a.coarse == b.coarse ==> b.detail.Some? && (a.detail.Some? ==> a.detail.value < b.detail.value))
  {
    var s := Ordered(S);
    assert Before(s[i], s[j]);
  }

  lemma SetOfTail(a: seq<Sig>)
    requires a != [] && Ascending(a)
    ensures SetOf(a[1..]) == SetOf(a) - {a[0]} && Ascending(a[1..])
  {
    assert a == [a[0]] + a[1..];
    assert a[0] !in a[1..];
  }

  /** `sorted`, on signatures without repeats. */
  method SortSignatures(keys: seq<Sig>) returns (r: seq<Sig>)
    requires forall i, j :: 0 <= i < j < |keys| ==> keys[i] != keys[j]
    ensures Ascending(r) && SetOf(r) == SetOf(keys)
  {
    r := [];
    for n := 0 to |keys|
      invariant Ascending(r) && SetOf(r) == SetOf(keys[..n])
    {
      assert keys[..n + 1] == keys[..n] + [keys[n]];
      assert keys[n] !in keys[..n];
      assert keys[n] !in SetOf(r);
      r := InsertSorted(r, keys[n]);
    }
    assert keys[..|keys|] == keys;
  }

  method InsertSorted(s: seq<Sig>, x: Sig) returns (r: seq<Sig>)
    requires Ascending(s) && x !in s
    ensures Ascending(r) && SetOf(r) == SetOf(s) + {x}
  {
    var i := 0;
    while i < |s| && Before(s[i], x)
      invariant 0 <= i <= |s| && forall j :: 0 <= j < i ==> Before(s[j], x)
    {
      i := i + 1;
    }
    r := s[..i] + [x] + s[i..];
    InsertKeepsOrder(s, i, x);
  }

  lemma InsertKeepsOrder(s: seq<Sig>, i: nat, x: Sig)
    requires Ascending(s) && x !in s && i <= |s|
    requires (forall j :: 0 <= j < i ==> Before(s[j], x)) && (i < |s| ==> !Before(s[i], x))
    ensures Ascending(s[..i] + [x] + s[i..]) && SetOf(s[..i] + [x] + s[i..]) == SetOf(s) + {x}
  {
    assert s == s[..i] + s[i..];
    forall j | i <= j < |s| ensures Before(x, s[j]) {
      KeyIsInjective(s[i], x);
    }
  }

  lemma {:induction false} CanBeSorted(S: set<Sig>) returns (s: seq<Sig>)
    ensures Ascending(s) && SetOf(s) == S
    decreases |S|
  {
    if S == {} {
      s := [];
    } else {
      var x :| x in S;
      var t := CanBeSorted(S - {x});
      s := Inserted(t, x);
    }
  }

  lemma {:induction false} Inserted(s: seq<Sig>, x: Sig) returns (r: seq<Sig>)
    requires Ascending(s) && x !in SetOf(s)
    ensures Ascending(r) && SetOf(r) == SetOf(s) + {x}
    decreases |s|
  {
    if s == [] || Before(x, s[0]) {
      r := [x] + s;
    } else {
      SetOfTail(s);
      KeyIsInjective(x, s[0]);
      assert s[0] in SetOf(s);
      var t := Inserted(s[1..], x);
      r := [s[0]] + t;
      forall j | 0 <= j < |t| ensures Before(s[0], t[j]) {
        assert t[j] in SetOf(t);
        if t[j] != x { assert t[j] in s[1..]; }
      }
    }
  }

  /** A set of signatures in ascending order. */
  ghost function Ordered(S: set<Sig>): (s: seq<Sig>)
    ensures Ascending(s) && SetOf(s) == S
  {
    SortedExists(S);
    var s :| Ascending(s) && SetOf(s) == S;
    s
  }

  lemma SortedExists(S: set<Sig>)
    ensures exists s :: Ascending(s) && SetOf(s) == S
  {
    var s := CanBeSorted(S);
  }

  // ----- clusters -----

  predicate MatchesAll(lim: Limits, s: Sig, members: seq<Sig>) {
    forall m :: 0 <= m < |members| ==> Matches(lim, s, members[m])
  }

  /** The largest member distance, in tuple order. */
  function Worst(s: Sig, members: seq<Sig>, n: nat): Distance
    requires 1 <= n <= |members|
  {
    var d := DistanceOf(s, members[n - 1]);
    if n == 1 then d
    else
      var w := Worst(s, members, n - 1);
      if Closer(w, d) then d else w
  }

  /** The worst distance is that of some member, and no member is farther. */
  lemma {:induction false} WorstIsFarthest(s: Sig, members: seq<Sig>, n: nat) returns (m: nat)
    requires 1 <= n <= |members|
    ensures m < n && Worst(s, members, n) == DistanceOf(s, members[m])
    ensures forall k :: 0 <= k < n ==> NotFarther(DistanceOf(s, members[k]), Worst(s, members, n))
  {
    m := 0;
    if n > 1 {
      m := WorstIsFarthest(s, members, n - 1);
      if Closer(Worst(s, members, n - 1), DistanceOf(s, members[n - 1])) { m := n - 1; }
    }
  }

  predicate AllNonempty(clusters: seq<seq<Sig>>) { forall k :: 0 <= k < |clusters| ==> clusters[k] != [] }

  function WorstOf(clusters: seq<seq<Sig>>, s: Sig, k: nat): Distance
    requires k < |clusters| && clusters[k] != []
  {
    Worst(s, clusters[k], |clusters[k]|)
  }

  /** Among the first `n` clusters, the matching one whose worst distance is least; the earlier one on a tie. */
  function Best(lim: Limits, clusters: seq<seq<Sig>>, s: Sig, n: nat): (r: Option<nat>)
    requires AllNonempty(clusters) && n <= |clusters|
    ensures r.Some? ==> r.value < n
  {
    if n == 0 then None
    else
      var p := Best(lim, clusters, s, n - 1);
      if MatchesAll(lim, s, clusters[n - 1])
         && (p.None? || Closer(WorstOf(clusters, s, n - 1), WorstOf(clusters, s, p.value))) then Some(n - 1)
      else p
  }

  predicate Candidate(lim: Limits, clusters: seq<seq<Sig>>, s: Sig, k: nat) {
    k < |clusters| && MatchesAll(lim, s, clusters[k])
  }

  /** The chosen cluster is the least of `(worst distance, index)` over all candidates, and there is one iff any matches. */
  lemma {:induction false} BestIsLeastCandidate(lim: Limits, clusters: seq<seq<Sig>>, s: Sig, n: nat)
    requires AllNonempty(clusters) && n <= |clusters|
    ensures Best(lim, clusters, s, n).None? <==> forall k :: 0 <= k < n ==> !Candidate(lim, clusters, s, k)
    ensures Best(lim, clusters, s, n).Some? ==>
      Candidate(lim, clusters, s, Best(lim, clusters, s, n).value)
    ensures forall k :: 0 <= k < n && Candidate(lim, clusters, s, k) ==>
      var best := Best(lim, clusters, s, n).value;
      && !Closer(WorstOf(clusters, s, k), WorstOf(clusters, s, best))
      && (k < best ==> Closer(WorstOf(clusters, s, best), WorstOf(clusters, s, k)))
  {
    if n > 0 {
      BestIsLeastCandidate(lim, clusters, s, n - 1);
      assert Candidate(lim, clusters, s, n - 1) <==> MatchesAll(lim, s, clusters[n - 1]);
    }
  }

  /** Clusters, and the cluster each signature went to. */
  datatype Partition = Partition(clusters: seq<seq<Sig>>, home: map<Sig, nat>)

  function Joined(lim: Limits, p: Partition, s: Sig): (r: Partition)
    requires AllNonempty(p.clusters)
    ensures AllNonempty(r.clusters)
  {
    match Best(lim, p.clusters, s, |p.clusters|)
    case Some(k) => Partition(p.clusters[k := p.clusters[k] + [s]], p.home[s := k])
    case None => Partition(p.clusters + [[s]], p.home[s := |p.clusters|])
  }

  /** Every member of the cluster is within the limits of the signature. */
  predicate WithinLimits(lim: Limits, s: Sig, members: seq<Sig>) {
    forall m {:trigger members[m]} :: 0 <= m < |members| ==> !OverLimit(lim, s, members[m])
  }

  /**
   * A signature joins a cluster within whose limits it lies: the one whose farthest member is nearest, the earliest of
   * them on a tie; it opens a cluster of its own exactly when there is none. No other signature moves.
   */
  lemma JoinsTheNearest(lim: Limits, p: Partition, s: Sig)
    requires AllNonempty(p.clusters) && lim.detail >= 0
    ensures var r := Joined(lim, p, s);
      && s in r.home && (forall x :: x in p.home && x != s ==> x in r.home && r.home[x] == p.home[x])
      && (r.home[s] == |p.clusters| <==> forall k :: 0 <= k < |p.clusters| ==> !WithinLimits(lim, s, p.clusters[k]))
      && (r.home[s] == |p.clusters| ==> r.clusters == p.clusters + [[s]])
      && (r.home[s] != |p.clusters| ==>
            && r.home[s] < |p.clusters| && WithinLimits(lim, s, p.clusters[r.home[s]])
            && r.clusters == p.clusters[r.home[s] := p.clusters[r.home[s]] + [s]]
            && forall k :: 0 <= k < |p.clusters| && WithinLimits(lim, s, p.clusters[k]) ==>
                 && NotFarther(WorstOf(p.clusters, s, r.home[s]), WorstOf(p.clusters, s, k))
                 && (WorstOf(p.clusters, s, k) == WorstOf(p.clusters, s, r.home[s]) ==> r.home[s] <= k))
  {
    BestIsLeastCandidate(lim, p.clusters, s, |p.clusters|);
    forall k | 0 <= k < |p.clusters| ensures Candidate(lim, p.clusters, s, k) <==> WithinLimits(lim, s, p.clusters[k]) {
      MembersWithinLimits(lim, s, p.clusters[k]);
    }
  }

  lemma MembersWithinLimits(lim: Limits, s: Sig, members: seq<Sig>)
    requires lim.detail >= 0
    ensures MatchesAll(lim, s, members) <==> WithinLimits(lim, s, members)
  {
    forall m | 0 <= m < |members| ensures Matches(lim, s, members[m]) <==> !OverLimit(lim, s, members[m]) {
      MatchesUnlessOverLimit(lim, s, members[m]);
    }
  }

  /** The first `n` signatures placed one by one. */
  function Placed(lim: Limits, order: seq<Sig>, n: nat): (p: Partition)
    requires n <= |order|
    ensures AllNonempty(p.clusters)
  {
    if n == 0 then Partition([], map[]) else Joined(lim, Placed(lim, order, n - 1), order[n - 1])
  }

  function Clustered(lim: Limits, order: seq<Sig>): Partition { Placed(lim, order, |order|) }

  method WorstDistance(s: Sig, members: seq<Sig>) returns (d: Distance)
    requires members != []
    ensures d == Worst(s, members, |members|)
  {
    d := DistanceOf(s, members[0]);
    for m := 1 to |members|
      invariant d == Worst(s, members, m)
    {
      var next := DistanceOf(s, members[m]);
      if Closer(d, next) { d := next; }
    }
  }

  method ChooseCluster(lim: Limits, clusters: seq<seq<Sig>>, s: Sig) returns (best: Option<nat>)
    requires AllNonempty(clusters)
    ensures best == Best(lim, clusters, s, |clusters|)
  {
    best := None;
    var least := Distance(0, 0);
    for k := 0 to |clusters|
      invariant best == Best(lim, clusters, s, k)
      invariant best.Some? ==> least == WorstOf(clusters, s, best.value)
    {
      var d := WorstDistance(s, clusters[k]);
      if (forall m :: 0 <= m < |clusters[k]| ==> Matches(lim, s, clusters[k][m])) && (best.None? || Closer(d, least)) {
        best, least := Some(k), d;
      }
    }
  }

  /** The clustering loop over the sorted signatures. */
  method ClusterSignatures(lim: Limits, order: seq<Sig>) returns (clusters: seq<seq<Sig>>, home: map<Sig, nat>)
    ensures Partition(clusters, home) == Clustered(lim, order)
  {
    clusters, home := [], map[];
    for n := 0 to |order|
      invariant Partition(clusters, home) == Placed(lim, order, n)
    {
      var best := ChooseCluster(lim, clusters, order[n]);
      if best.Some? {
        clusters := clusters[best.value := clusters[best.value] + [order[n]]];
        home := home[order[n] := best.value];
      } else {
        home := home[order[n] := |clusters|];
        clusters := clusters + [[order[n]]];
      }
    }
  }

  // ----- what a partition guarantees -----

  /** Signatures and clusters tell the same story. */
  predicate Homes(p: Partition) {
    && (forall s :: s in p.home ==> p.home[s] < |p.clusters| && s in p.clusters[p.home[s]])
    && (forall k, m :: 0 <= k < |p.clusters| && 0 <= m < |p.clusters[k]| ==>
          p.clusters[k][m] in p.home && p.home[p.clusters[k][m]] == k)
  }

  /** Any two members of a cluster match. */
  predicate AllMembersMatch(lim: Limits, p: Partition) {
    forall k, a, b {:trigger Matches(lim, p.clusters[k][a], p.clusters[k][b])} ::
      0 <= k < |p.clusters| && 0 <= a < |p.clusters[k]| && 0 <= b < |p.clusters[k]| ==>
      Matches(lim, p.clusters[k][a], p.clusters[k][b])
  }

  predicate Apart(lim: Limits, a: seq<Sig>, b: seq<Sig>) {
    exists x, y :: 0 <= x < |a| && 0 <= y < |b| && !Matches(lim, a[x], b[y])
  }

  /** No two clusters could be one: some member of each does not match some member of the other. */
  predicate NoneMergeable(lim: Limits, p: Partition) {
    forall i, j {:trigger Apart(lim, p.clusters[j], p.clusters[i])} ::
      0 <= i < j < |p.clusters| ==> Apart(lim, p.clusters[j], p.clusters[i])
  }

  lemma JoinKeepsHomes(lim: Limits, p: Partition, s: Sig)
    requires AllNonempty(p.clusters) && Homes(p) && s !in p.home
    ensures Homes(Joined(lim, p, s))
  {
    var r := Joined(lim, p, s);
    var k := r.home[s];
    assert r.clusters[k][|r.clusters[k]| - 1] == s;
    forall x | x in r.home ensures r.home[x] < |r.clusters| && x in r.clusters[r.home[x]] {
      if x != s && p.home[x] == k { assert x in p.clusters[k]; }
    }
  }

  lemma JoinKeepsMatching(lim: Limits, p: Partition, s: Sig)
    requires AllNonempty(p.clusters) && AllMembersMatch(lim, p) && lim.coarse >= 0 && lim.detail >= 0
    ensures AllMembersMatch(lim, Joined(lim, p, s))
  {
    BestIsLeastCandidate(lim, p.clusters, s, |p.clusters|);
    MatchesItself(lim, s);
    forall x ensures Matches(lim, x, s) == Matches(lim, s, x) { MatchesIsSymmetric(lim, x, s); }
  }

  lemma LongerStaysApart(lim: Limits, a: seq<Sig>, b: seq<Sig>, a': seq<Sig>, b': seq<Sig>)
    requires Apart(lim, a, b) && a <= a' && b <= b'
    ensures Apart(lim, a', b')
  {
    var x, y :| 0 <= x < |a| && 0 <= y < |b| && !Matches(lim, a[x], b[y]);
    assert a'[x] == a[x] && b'[y] == b[y];
  }

  lemma JoinKeepsApart(lim: Limits, p: Partition, s: Sig)
    requires AllNonempty(p.clusters) && NoneMergeable(lim, p)
    ensures NoneMergeable(lim, Joined(lim, p, s))
  {
    BestIsLeastCandidate(lim, p.clusters, s, |p.clusters|);
    var r := Joined(lim, p, s);
    forall i, j | 0 <= i < j < |r.clusters| ensures Apart(lim, r.clusters[j], r.clusters[i]) {
      if j < |p.clusters| {
        LongerStaysApart(lim, p.clusters[j], p.clusters[i], r.clusters[j], r.clusters[i]);
      } else {
        assert !Candidate(lim, p.clusters, s, i);
        var y :| 0 <= y < |p.clusters[i]| && !Matches(lim, s, p.clusters[i][y]);
        assert r.clusters[j][0] == s && r.clusters[i][y] == p.clusters[i][y];
      }
    }
  }

  /** Complete-link clusters, maximal, and a home for every signature. */
  predicate SoundPartition(lim: Limits, p: Partition) {
    AllNonempty(p.clusters) && Homes(p) && AllMembersMatch(lim, p) && NoneMergeable(lim, p)
  }

  lemma JoinKeepsSound(lim: Limits, p: Partition, s: Sig)
    requires SoundPartition(lim, p) && s !in p.home && lim.coarse >= 0 && lim.detail >= 0
    ensures SoundPartition(lim, Joined(lim, p, s))
  {
    JoinKeepsHomes(lim, p, s);
    JoinKeepsMatching(lim, p, s);
    JoinKeepsApart(lim, p, s);
  }

  lemma OneMoreSignature(order: seq<Sig>, n: nat)
    requires Ascending(order) && n < |order|
    ensures order[n] !in SetOf(order[..n]) && SetOf(order[..n + 1]) == SetOf(order[..n]) + {order[n]}
  {
    assert order[..n + 1] == order[..n] + [order[n]];
  }

  lemma {:induction false} PlacedIsSound(lim: Limits, order: seq<Sig>, n: nat)
    requires Ascending(order) && n <= |order| && lim.coarse >= 0 && lim.detail >= 0
    ensures SoundPartition(lim, Placed(lim, order, n)) && Placed(lim, order, n).home.Keys == SetOf(order[..n])
  {
    PlacedKeys(lim, order, n);
    if n > 0 {
      PlacedIsSound(lim, order, n - 1);
      OneMoreSignature(order, n - 1);
      JoinKeepsSound(lim, Placed(lim, order, n - 1), order[n - 1]);
    }
  }

  lemma {:induction false} PlacedKeys(lim: Limits, order: seq<Sig>, n: nat)
    requires Ascending(order) && n <= |order|
    ensures Placed(lim, order, n).home.Keys == SetOf(order[..n])
  {
    if n > 0 {
      PlacedKeys(lim, order, n - 1);
      OneMoreSignature(order, n - 1);
    }
  }

  // ----- rows and labels -----

  /** A signature as the caller passes it: an integer fingerprint or any other object. */
  datatype Anchor = Fingerprint(v: int) | Other(id: nat)

  datatype Row<G> = Row(group: G, anchor: Anchor, detail: Option<Anchor>)

  datatype Label<G> =
    | Unset
    | Raw(group: G, anchor: Anchor)
    | RawDetail(group: G, anchor: Anchor, detail: Option<Anchor>)
    | Perceptual(group: G, cluster: nat)
    | ExcludedLoop(index: nat)

  datatype Error = GroupLength | DetailLength | CoarseLimitRange | DetailLimitRange

  datatype Result<T> = Ok(value: T) | Err(error: Error)

  /** The signature a row is clustered by, unless one of its parts is not an integer. */
  function SigOf<G>(row: Row<G>): Option<Sig> {
    match row.anchor
    case Other(_) => None
    case Fingerprint(c) =>
      match row.detail
      case None => Some(Sig(c, None))
      case Some(Fingerprint(d)) => Some(Sig(c, Some(d)))
      case Some(Other(_)) => None
  }

  /** The signatures occurring in an episode group. */
  ghost function Sigs<G>(rows: seq<Row<G>>, g: G): set<Sig> {
    set i | 0 <= i < |rows| && rows[i].group == g && SigOf(rows[i]).Some? :: SigOf(rows[i]).value
  }

  predicate ValidLimits(lim: Limits) { 0 <= lim.coarse <= 64 && 0 <= lim.detail <= 64 }

  /** The cluster number of a signature among those of its group: nothing else enters. */
  ghost function HomeOf(lim: Limits, S: set<Sig>, sig: Sig): (k: nat)
    requires ValidLimits(lim) && sig in S
    ensures k < |Clustered(lim, Ordered(S)).clusters| && sig in Clustered(lim, Ordered(S)).clusters[k]
  {
    var order := Ordered(S);
    PlacedIsSound(lim, order, |order|);
    assert order[..|order|] == order;
    Clustered(lim, order).home[sig]
  }

  ghost function LabelFor<G>(lim: Limits, row: Row<G>, S: set<Sig>): Label<G>
    requires ValidLimits(lim) && (SigOf(row).Some? ==> SigOf(row).value in S)
  {
    if SigOf(row).Some? then Perceptual(row.group, HomeOf(lim, S, SigOf(row).value))
    else if row.anchor.Other? then Raw(row.group, row.anchor)
    else RawDetail(row.group, row.anchor, row.detail)
  }

  ghost function LabelAt<G>(lim: Limits, rows: seq<Row<G>>, i: nat): Label<G>
    requires ValidLimits(lim) && i < |rows|
  {
    LabelFor(lim, rows[i], Sigs(rows, rows[i].group))
  }

  function Zip<G>(anchors: seq<Anchor>, groups: seq<G>, details: Option<seq<Option<Anchor>>>): (rows: seq<Row<G>>)
    requires |anchors| == |groups| && (details.Some? ==> |details.value| == |anchors|)
    ensures |rows| == |anchors|
  {
    seq(|anchors|, i requires 0 <= i < |anchors| =>
      Row(groups[i], anchors[i], if details.Some? then details.value[i] else None))
  }

  /** The checks, in order. */
  function Rejection<G>(anchors: seq<Anchor>, groups: seq<G>, details: Option<seq<Option<Anchor>>>, lim: Limits): Option<Error> {
    if |anchors| != |groups| then Some(GroupLength)
    else if details.Some? && |details.value| != |anchors| then Some(DetailLength)
    else if !(0 <= lim.coarse <= 64) then Some(CoarseLimitRange)
    else if !(0 <= lim.detail <= 64) then Some(DetailLimitRange)
    else None
  }

  ghost predicate Labelled<G>(lim: Limits, rows: seq<Row<G>>, out: seq<Label<G>>)
    requires ValidLimits(lim)
  {
    |out| == |rows| && forall i :: 0 <= i < |rows| ==> out[i] == LabelAt(lim, rows, i)
  }

  method PerceptualAnchorGroups<G(==, !new)>(anchors: seq<Anchor>, groups: seq<G>, details: Option<seq<Option<Anchor>>>, lim: Limits)
    returns (r: Result<seq<Label<G>>>)
    ensures Rejection(anchors, groups, details, lim).Some? ==> r == Err(Rejection(anchors, groups, details, lim).value)
    ensures Rejection(anchors, groups, details, lim).None? ==>
      r.Ok? && Labelled(lim, Zip(anchors, groups, details), r.value)
  {
    if |anchors| != |groups| { return Err(GroupLength); }
    if details.Some? && |details.value| != |anchors| { return Err(DetailLength); }
    if !(0 <= lim.coarse <= 64) { return Err(CoarseLimitRange); }
    if !(0 <= lim.detail <= 64) { return Err(DetailLimitRange); }
    var rows := Zip(anchors, groups, details);
    var positions, order := GroupPositions(rows);
    var out: seq<Label<G>> := seq(|rows|, _ => Unset);
    for n := 0 to |order|
      invariant |out| == |rows|
      invariant forall i :: 0 <= i < |rows| && rows[i].group in order[..n] ==> out[i] == LabelAt(lim, rows, i)
    {
      assert order[..n + 1] == order[..n] + [order[n]];
      out := LabelGroup(lim, rows, order[n], positions[order[n]], out);
    }
    assert order[..|order|] == order;
    r := Ok(out);
  }

  ghost predicate PositionsUpTo<G(!new)>(rows: seq<Row<G>>, n: nat, positions: map<G, seq<nat>>, order: seq<G>)
    requires n <= |rows|
  {
    && (forall g :: g in positions <==> g in order)
    && (forall i :: 0 <= i < n ==> rows[i].group in positions && i in positions[rows[i].group])
    && (forall g, k :: g in positions && 0 <= k < |positions[g]| ==> positions[g][k] < n && rows[positions[g][k]].group == g)
  }

  /** Row indices by episode group, in order of first appearance. */
  method GroupPositions<G(==, !new)>(rows: seq<Row<G>>) returns (positions: map<G, seq<nat>>, order: seq<G>)
    ensures PositionsUpTo(rows, |rows|, positions, order)
  {
    positions, order := map[], [];
    for n := 0 to |rows|
      invariant PositionsUpTo(rows, n, positions, order)
    {
      var g := rows[n].group;
      if g !in positions {
        positions, order := positions[g := []], order + [g];
      }
      positions := positions[g := positions[g] + [n]];
    }
  }

  /** Every row of the group, and no other. */
  ghost predicate RowsOfGroup<G(!new)>(rows: seq<Row<G>>, g: G, indices: seq<nat>) {
    && (forall k :: 0 <= k < |indices| ==> indices[k] < |rows| && rows[indices[k]].group == g)
    && (forall i :: 0 <= i < |rows| && rows[i].group == g ==> i in indices)
  }

  /** The clusterable rows among the first `n` indices, by signature; `keys` in order of first appearance. */
  ghost predicate ExactUpTo<G(!new)>(rows: seq<Row<G>>, indices: seq<nat>, n: nat, exact: map<Sig, seq<nat>>, keys: seq<Sig>)
    requires n <= |indices| && forall k :: 0 <= k < |indices| ==> indices[k] < |rows|
  {
    && (forall s :: s in exact <==> s in keys)
    && (forall i, j :: 0 <= i < j < |keys| ==> keys[i] != keys[j])
    && (forall k :: 0 <= k < n && SigOf(rows[indices[k]]).Some? ==>
          SigOf(rows[indices[k]]).value in exact && indices[k] in exact[SigOf(rows[indices[k]]).value])
    && (forall s :: s in exact ==> exact[s] != [])
    && (forall s, m :: s in exact && 0 <= m < |exact[s]| ==> exact[s][m] in indices && SigOf(rows[exact[s][m]]) == Some(s))
  }

  /** Raw labels for the rows that cannot be clustered, and the others collected by exact signature. */
  method CollectExact<G(==, !new)>(lim: Limits, rows: seq<Row<G>>, g: G, indices: seq<nat>, before: seq<Label<G>>)
    returns (out: seq<Label<G>>, exact: map<Sig, seq<nat>>, keys: seq<Sig>)
    requires ValidLimits(lim) && RowsOfGroup(rows, g, indices) && |before| == |rows|
    ensures |out| == |rows| && ExactUpTo(rows, indices, |indices|, exact, keys)
    ensures forall i :: 0 <= i < |rows| && rows[i].group != g ==> out[i] == before[i]
    ensures forall i :: 0 <= i < |rows| && rows[i].group == g && SigOf(rows[i]).None? ==> out[i] == LabelAt(lim, rows, i)
  {
    out, exact, keys := before, map[], [];
    for n := 0 to |indices|
      invariant |out| == |rows| && ExactUpTo(rows, indices, n, exact, keys)
      invariant forall i :: 0 <= i < |rows| && rows[i].group != g ==> out[i] == before[i]
      invariant forall k :: 0 <= k < n && SigOf(rows[indices[k]]).None? ==> out[indices[k]] == LabelAt(lim, rows, indices[k])
    {
      var index := indices[n];
      var row := rows[index];
      if row.anchor.Other? {
        out := out[index := Raw(g, row.anchor)];
      } else if row.detail.Some? && row.detail.value.Other? {
        out := out[index := RawDetail(g, row.anchor, row.detail)];
      } else {
        var sig := Sig(row.anchor.v, if row.detail.None? then None else Some(row.detail.value.v));
        assert SigOf(row) == Some(sig);
        exact, keys := AddExact(rows, indices, n, exact, keys, sig);
      }
    }
  }

  method AddExact<G(!new)>(rows: seq<Row<G>>, indices: seq<nat>, n: nat, exact: map<Sig, seq<nat>>, keys: seq<Sig>, sig: Sig)
    returns (exact': map<Sig, seq<nat>>, keys': seq<Sig>)
    requires n < |indices| && forall k :: 0 <= k < |indices| ==> indices[k] < |rows|
    requires ExactUpTo(rows, indices, n, exact, keys) && SigOf(rows[indices[n]]) == Some(sig)
    ensures ExactUpTo(rows, indices, n + 1, exact', keys')
  {
    if sig in exact {
      exact', keys' := exact[sig := exact[sig] + [indices[n]]], keys;
      ExactGrows(rows, indices, n, exact, keys, sig);
    } else {
      exact', keys' := exact[sig := [indices[n]]], keys + [sig];
      ExactOpens(rows, indices, n, exact, keys, sig);
    }
  }

  lemma ExactGrows<G(!new)>(rows: seq<Row<G>>, indices: seq<nat>, n: nat, exact: map<Sig, seq<nat>>, keys: seq<Sig>, sig: Sig)
    requires n < |indices| && forall k :: 0 <= k < |indices| ==> indices[k] < |rows|
    requires ExactUpTo(rows, indices, n, exact, keys) && SigOf(rows[indices[n]]) == Some(sig) && sig in exact
    ensures ExactUpTo(rows, indices, n + 1, exact[sig := exact[sig] + [indices[n]]], keys)
  {
  }

  lemma ExactOpens<G(!new)>(rows: seq<Row<G>>, indices: seq<nat>, n: nat, exact: map<Sig, seq<nat>>, keys: seq<Sig>, sig: Sig)
    requires n < |indices| && forall k :: 0 <= k < |indices| ==> indices[k] < |rows|
    requires ExactUpTo(rows, indices, n, exact, keys) && SigOf(rows[indices[n]]) == Some(sig) && sig !in exact
    ensures ExactUpTo(rows, indices, n + 1, exact[sig := [indices[n]]], keys + [sig])
  {
  }

  lemma KeysAreSigs<G(!new)>(rows: seq<Row<G>>, g: G, indices: seq<nat>, exact: map<Sig, seq<nat>>, keys: seq<Sig>)
    requires RowsOfGroup(rows, g, indices) && ExactUpTo(rows, indices, |indices|, exact, keys)
    ensures SetOf(keys) == Sigs(rows, g)
  {
    forall s | s in keys ensures s in Sigs(rows, g) {
      assert s in exact && exact[s] != [] && exact[s][0] in indices;
    }
    forall s | s in Sigs(rows, g) ensures s in keys {
      var i :| 0 <= i < |rows| && rows[i].group == g && SigOf(rows[i]) == Some(s);
      assert i in indices;
    }
  }

  /** One episode group: rows collected, signatures sorted and clustered, labels written. */
  method LabelGroup<G(==, !new)>(lim: Limits, rows: seq<Row<G>>, g: G, indices: seq<nat>, before: seq<Label<G>>)
    returns (out: seq<Label<G>>)
    requires ValidLimits(lim) && RowsOfGroup(rows, g, indices) && |before| == |rows|
    ensures |out| == |rows|
    ensures forall i :: 0 <= i < |rows| ==> out[i] == if rows[i].group == g then LabelAt(lim, rows, i) else before[i]
  {
    var exact, keys;
    out, exact, keys := CollectExact(lim, rows, g, indices, before);
    var order := SortSignatures(keys);
    KeysAreSigs(rows, g, indices, exact, keys);
    AscendingIsUnique(order, Ordered(Sigs(rows, g)));
    var clusters, home := ClusterSignatures(lim, order);
    PlacedIsSound(lim, order, |order|);
    assert order[..|order|] == order;
    out := WriteLabels(lim, rows, g, exact, keys, home, out);
    forall i | 0 <= i < |rows| && rows[i].group == g ensures out[i] == LabelAt(lim, rows, i) {
      assert i in indices;
    }
  }

  /** Row `i` was collected under one of `keys`. */
  predicate Collected<G>(rows: seq<Row<G>>, exact: map<Sig, seq<nat>>, keys: seq<Sig>, i: nat)
    requires i < |rows|
  {
    var s := SigOf(rows[i]);
    s.Some? && s.value in keys && s.value in exact && i in exact[s.value]
  }

  method WriteLabels<G(==, !new)>(lim: Limits, rows: seq<Row<G>>, g: G, exact: map<Sig, seq<nat>>, keys: seq<Sig>,
    home: map<Sig, nat>, before: seq<Label<G>>) returns (out: seq<Label<G>>)
    requires |before| == |rows| && (forall s :: s in exact <==> s in keys) && forall s :: s in keys ==> s in home
    requires forall s, m :: s in exact && 0 <= m < |exact[s]| ==> exact[s][m] < |rows| && SigOf(rows[exact[s][m]]) == Some(s)
    ensures |out| == |rows|
    ensures forall i :: 0 <= i < |rows| ==> (out[i] ==
      if Collected(rows, exact, keys, i) then Perceptual(g, home[SigOf(rows[i]).value]) else before[i])
  {
    out := before;
    for n := 0 to |keys|
      invariant |out| == |rows|
      invariant forall i :: 0 <= i < |rows| ==> (out[i] ==
        if Collected(rows, exact, keys[..n], i) then Perceptual(g, home[SigOf(rows[i]).value]) else before[i])
    {
      assert keys[..n + 1] == keys[..n] + [keys[n]];
      var sig := keys[n];
      ghost var was := out;
      for m := 0 to |exact[sig]|
        invariant |out| == |rows|
        invariant forall i :: 0 <= i < |rows| ==> out[i] == if i in exact[sig][..m] then Perceptual(g, home[sig]) else was[i]
      {
        assert exact[sig][..m + 1] == exact[sig][..m] + [exact[sig][m]];
        out := out[exact[sig][m] := Perceptual(g, home[sig])];
      }
      assert exact[sig][..|exact[sig]|] == exact[sig];
    }
    assert keys[..|keys|] == keys;
  }

  // ----- what labels mean -----

  /** Every row of `b` is the row of `a` that `f` names, and every row of `a` is named. */
  predicate Rearranged<G(==)>(a: seq<Row<G>>, b: seq<Row<G>>, f: seq<nat>) {
    && |f| == |b|
    && (forall j :: 0 <= j < |f| ==> f[j] < |a| && b[j] == a[f[j]])
    && (forall i :: 0 <= i < |a| ==> i in f)
  }

  /** Permuting or repeating rows permutes or repeats labels, and changes nothing else. */
  lemma RowOrderDoesNotMatter<G>(lim: Limits, a: seq<Row<G>>, b: seq<Row<G>>, f: seq<nat>, j: nat)
    requires ValidLimits(lim) && Rearranged(a, b, f) && j < |b|
    ensures LabelAt(lim, b, j) == LabelAt(lim, a, f[j])
  {
    var g := b[j].group;
    forall s | s in Sigs(a, g) ensures s in Sigs(b, g) {
      var i :| 0 <= i < |a| && a[i].group == g && SigOf(a[i]) == Some(s);
      assert i in f;
      var k :| 0 <= k < |f| && f[k] == i;
      assert b[k] == a[i];
    }
    forall s | s in Sigs(b, g) ensures s in Sigs(a, g) {
      var k :| 0 <= k < |b| && b[k].group == g && SigOf(b[k]) == Some(s);
      assert a[f[k]] == b[k];
    }
    assert Sigs(a, g) == Sigs(b, g);
  }

  /** Rows share a label only within a group, and only when identical or in one cluster. */
  lemma LabelsStayInGroups<G>(lim: Limits, rows: seq<Row<G>>, i: nat, j: nat)
    requires ValidLimits(lim) && i < |rows| && j < |rows| && LabelAt(lim, rows, i) == LabelAt(lim, rows, j)
    ensures rows[i].group == rows[j].group
    ensures SigOf(rows[i]).None? ==> rows[i].anchor == rows[j].anchor && (rows[i].anchor.Fingerprint? ==> rows[i] == rows[j])
    ensures SigOf(rows[i]).Some? <==> SigOf(rows[j]).Some?
  {
  }

  /** Rows that cannot be clustered share a label exactly when they are of one group and their raw signatures are equal. */
  lemma RawRowsShareIff<G>(lim: Limits, rows: seq<Row<G>>, i: nat, j: nat)
    requires ValidLimits(lim) && i < |rows| && j < |rows| && SigOf(rows[i]).None?
    ensures LabelAt(lim, rows, i) == LabelAt(lim, rows, j) <==>
      && rows[i].group == rows[j].group && rows[i].anchor == rows[j].anchor
      && (rows[i].anchor.Fingerprint? ==> rows[i].detail == rows[j].detail)
  {
  }

  /** Rows of one group with equal signatures share their label. */
  lemma EqualSignaturesShare<G>(lim: Limits, rows: seq<Row<G>>, i: nat, j: nat)
    requires ValidLimits(lim) && i < |rows| && j < |rows| && rows[i].group == rows[j].group
    requires rows[i].anchor == rows[j].anchor && rows[i].detail == rows[j].detail
    ensures LabelAt(lim, rows, i) == LabelAt(lim, rows, j)
  {
  }

  lemma SignatureInGroup<G>(rows: seq<Row<G>>, i: nat)
    requires i < |rows| && SigOf(rows[i]).Some?
    ensures SigOf(rows[i]).value in Sigs(rows, rows[i].group)
  {
  }

  /** Any two rows of one perceptual cluster match each other: complete link, so the limits bound the diameter. */
  lemma ClusteredRowsMatch<G>(lim: Limits, rows: seq<Row<G>>, i: nat, j: nat)
    requires ValidLimits(lim) && i < |rows| && j < |rows| && SigOf(rows[i]).Some?
    requires LabelAt(lim, rows, i) == LabelAt(lim, rows, j)
    ensures SigOf(rows[j]).Some? && Matches(lim, SigOf(rows[i]).value, SigOf(rows[j]).value)
    ensures HammingDistance(SigOf(rows[i]).value.coarse, SigOf(rows[j]).value.coarse) <= lim.coarse
    ensures var (a, b) := (SigOf(rows[i]).value, SigOf(rows[j]).value);
      a.detail.Some? && b.detail.Some? ==>
        && HammingDistance(a.detail.value, b.detail.value) <= lim.detail
        && (HammingDistance(a.coarse, b.coarse) == 0 ==> HammingDistance(a.detail.value, b.detail.value) <= 1)
  {
    SignatureInGroup(rows, i);
    SignatureInGroup(rows, j);
    MatchesUnlessOverLimit(lim, SigOf(rows[i]).value, SigOf(rows[j]).value);
    var S := Sigs(rows, rows[i].group);
    var order := Ordered(S);
    PlacedIsSound(lim, order, |order|);
    var p, k := Clustered(lim, order), HomeOf(lim, S, SigOf(rows[i]).value);
    assert HomeOf(lim, S, SigOf(rows[j]).value) == k;
    var a :| 0 <= a < |p.clusters[k]| && p.clusters[k][a] == SigOf(rows[i]).value;
    var b :| 0 <= b < |p.clusters[k]| && p.clusters[k][b] == SigOf(rows[j]).value;
  }

  /** Every member of every cluster is the signature of a row so labelled. */
  lemma MemberHasARow<G>(lim: Limits, rows: seq<Row<G>>, g: G, k: nat, m: nat) returns (i: nat)
    requires ValidLimits(lim)
    requires var p := Clustered(lim, Ordered(Sigs(rows, g))); k < |p.clusters| && m < |p.clusters[k]|
    ensures i < |rows| && rows[i].group == g
    ensures SigOf(rows[i]) == Some(Clustered(lim, Ordered(Sigs(rows, g))).clusters[k][m])
    ensures LabelAt(lim, rows, i) == Perceptual(g, k)
  {
    var S := Sigs(rows, g);
    var order := Ordered(S);
    PlacedIsSound(lim, order, |order|);
    assert order[..|order|] == order;
    var s := Clustered(lim, order).clusters[k][m];
    assert s in S;
    i :| 0 <= i < |rows| && rows[i].group == g && SigOf(rows[i]) == Some(s);
  }

  /** Two clusters of a group could not have been one: some row of each does not match some row of the other. */
  lemma ClustersAreMaximal<G>(lim: Limits, rows: seq<Row<G>>, i: nat, j: nat) returns (x: nat, y: nat)
    requires ValidLimits(lim) && i < |rows| && j < |rows| && rows[i].group == rows[j].group
    requires SigOf(rows[i]).Some? && SigOf(rows[j]).Some? && LabelAt(lim, rows, i) != LabelAt(lim, rows, j)
    ensures x < |rows| && LabelAt(lim, rows, x) == LabelAt(lim, rows, i) && SigOf(rows[x]).Some?
    ensures y < |rows| && LabelAt(lim, rows, y) == LabelAt(lim, rows, j) && SigOf(rows[y]).Some?
    ensures !Matches(lim, SigOf(rows[x]).value, SigOf(rows[y]).value)
    ensures var (a, b) := (SigOf(rows[x]).value, SigOf(rows[y]).value);
      || HammingDistance(a.coarse, b.coarse) > lim.coarse
      || (a.detail.Some? && b.detail.Some? &&
           (|| HammingDistance(a.detail.value, b.detail.value) > lim.detail
            || (HammingDistance(a.coarse, b.coarse) == 0 && HammingDistance(a.detail.value, b.detail.value) > 1)))
  {
    SignatureInGroup(rows, i);
    SignatureInGroup(rows, j);
    var S := Sigs(rows, rows[i].group);
    var ki, kj := HomeOf(lim, S, SigOf(rows[i]).value), HomeOf(lim, S, SigOf(rows[j]).value);
    if ki < kj {
      y, x := UnmatchedRows(lim, rows, rows[i].group, kj, ki);
      MatchesIsSymmetric(lim, SigOf(rows[x]).value, SigOf(rows[y]).value);
    } else {
      x, y := UnmatchedRows(lim, rows, rows[i].group, ki, kj);
    }
    MatchesUnlessOverLimit(lim, SigOf(rows[x]).value, SigOf(rows[y]).value);
  }

  lemma UnmatchedRows<G>(lim: Limits, rows: seq<Row<G>>, g: G, hi: nat, lo: nat) returns (u: nat, v: nat)
    requires ValidLimits(lim) && lo < hi < |Clustered(lim, Ordered(Sigs(rows, g))).clusters|
    ensures u < |rows| && LabelAt(lim, rows, u) == Perceptual(g, hi) && SigOf(rows[u]).Some?
    ensures v < |rows| && LabelAt(lim, rows, v) == Perceptual(g, lo) && SigOf(rows[v]).Some?
    ensures !Matches(lim, SigOf(rows[u]).value, SigOf(rows[v]).value)
  {
    var order := Ordered(Sigs(rows, g));
    PlacedIsSound(lim, order, |order|);
    var clusters := Clustered(lim, order).clusters;
    var a, b := UnmatchedMembers(lim, clusters[hi], clusters[lo]);
    u := MemberHasARow(lim, rows, g, hi, a);
    v := MemberHasARow(lim, rows, g, lo, b);
  }

  lemma UnmatchedMembers(lim: Limits, a: seq<Sig>, b: seq<Sig>) returns (x: nat, y: nat)
    requires Apart(lim, a, b)
    ensures x < |a| && y < |b| && !Matches(lim, a[x], b[y])
  {
    x, y :| x < |a| && y < |b| && !Matches(lim, a[x], b[y]);
  }

  // ----- loop rows -----

  /** The rows outside loops, in order. */
  function Kept<T>(xs: seq<T>, loops: seq<bool>, n: nat): seq<T>
    requires n <= |xs| == |loops|
  {
    if n == 0 then [] else Kept(xs, loops, n - 1) + (if loops[n - 1] then [] else [xs[n - 1]])
  }

  /** How many of the first `n` rows are outside loops. */
  function Rank(loops: seq<bool>, n: nat): nat
    requires n <= |loops|
  {
    if n == 0 then 0 else Rank(loops, n - 1) + (if loops[n - 1] then 0 else 1)
  }

  lemma {:induction false} KeptLength<T>(xs: seq<T>, loops: seq<bool>, n: nat)
    requires n <= |xs| == |loops|
    ensures |Kept(xs, loops, n)| == Rank(loops, n)
  {
    if n > 0 { KeptLength(xs, loops, n - 1); }
  }

  lemma {:induction false} KeptAt<T>(xs: seq<T>, loops: seq<bool>, n: nat, i: nat)
    requires i < n <= |xs| == |loops| && !loops[i]
    ensures Rank(loops, i) < |Kept(xs, loops, n)| && Kept(xs, loops, n)[Rank(loops, i)] == xs[i]
  {
    KeptLength(xs, loops, n - 1);
    if i < n - 1 { KeptAt(xs, loops, n - 1, i); }
  }

  lemma {:induction false} KeptZip<G>(anchors: seq<Anchor>, groups: seq<G>, details: Option<seq<Option<Anchor>>>, loops: seq<bool>, n: nat)
    requires |anchors| == |groups| == |loops| && (details.Some? ==> |details.value| == |anchors|) && n <= |anchors|
    ensures |Kept(anchors, loops, n)| == |Kept(groups, loops, n)|
    ensures details.Some? ==> |Kept(details.value, loops, n)| == |Kept(anchors, loops, n)|
    ensures Zip(Kept(anchors, loops, n), Kept(groups, loops, n), if details.Some? then Some(Kept(details.value, loops, n)) else None)
         == Kept(Zip(anchors, groups, details), loops, n)
  {
    if n > 0 { KeptZip(anchors, groups, details, loops, n - 1); }
  }

  method KeepRows<T>(xs: seq<T>, loops: seq<bool>) returns (r: seq<T>)
    requires |xs| == |loops|
    ensures r == Kept(xs, loops, |xs|)
  {
    r := [];
    for i := 0 to |xs|
      invariant r == Kept(xs, loops, i)
    {
      if !loops[i] { r := r + [xs[i]]; }
    }
  }

  /**
   * Loop rows get a group of their own each; the other rows are labelled as if the loop rows were not there.
   */
  method PerceptualAnchorGroupsWithoutLoops<G(==, !new)>(anchors: seq<Anchor>, groups: seq<G>,
    details: Option<seq<Option<Anchor>>>, loops: seq<bool>, lim: Limits) returns (r: Result<seq<Label<G>>>)
    requires |anchors| == |groups| == |loops| && (details.Some? ==> |details.value| == |anchors|)
    ensures r.Ok? <==> ValidLimits(lim)
    ensures r.Ok? ==> |r.value| == |anchors|
    ensures r.Ok? ==> forall i :: 0 <= i < |anchors| && loops[i] ==> r.value[i] == ExcludedLoop(i)
    ensures r.Ok? ==> forall i :: 0 <= i < |anchors| && !loops[i] ==>
      var rows := Zip(anchors, groups, details);
      var kept := Kept(rows, loops, |anchors|);
      && Rank(loops, i) < |kept| && kept[Rank(loops, i)] == rows[i]
      && r.value[i] == LabelAt(lim, kept, Rank(loops, i))
  {
    ghost var rows := Zip(anchors, groups, details);
    KeptZip(anchors, groups, details, loops, |anchors|);
    var a := KeepRows(anchors, loops);
    var g := KeepRows(groups, loops);
    var d := None;
    if details.Some? {
      var ds := KeepRows(details.value, loops);
      d := Some(ds);
    }
    r := PerceptualAnchorGroups(a, g, d, lim);
    if r.Ok? {
      KeptLength(rows, loops, |rows|);
      var out := Scatter(loops, r.value);
      forall i | 0 <= i < |rows| && !loops[i]
        ensures Rank(loops, i) < |r.value| && Kept(rows, loops, |rows|)[Rank(loops, i)] == rows[i]
      {
        KeptAt(rows, loops, |rows|, i);
      }
      assert forall i {:trigger out[i]} :: 0 <= i < |rows| ==> Back(loops, r.value, i, out[i]);
      r := Ok(out);
    }
  }

  predicate Back<G(==)>(loops: seq<bool>, included: seq<Label<G>>, i: nat, l: Label<G>)
    requires i < |loops|
  {
    if loops[i] then l == ExcludedLoop(i) else Rank(loops, i) < |included| && l == included[Rank(loops, i)]
  }

  /** Labels of kept rows back in their places, among the inert ones. */
  method Scatter<G(==)>(loops: seq<bool>, included: seq<Label<G>>) returns (out: seq<Label<G>>)
    requires |included| == Rank(loops, |loops|)
    ensures |out| == |loops|
    ensures forall i {:trigger Back(loops, included, i, out[i])} :: 0 <= i < |out| ==> Back(loops, included, i, out[i])
  {
    out := [];
    var next := 0;
    for i := 0 to |loops|
      invariant |out| == i && next == Rank(loops, i)
      invariant forall j {:trigger Back(loops, included, j, out[j])} :: 0 <= j < i ==> Back(loops, included, j, out[j])
    {
      RankGrows(loops, i, |loops|);
      if loops[i] {
        out := out + [ExcludedLoop(i)];
      } else {
        out := out + [included[next]];
        next := next + 1;
      }
    }
  }

  lemma {:induction false} RankGrows(loops: seq<bool>, i: nat, n: nat)
    requires i < n <= |loops|
    ensures Rank(loops, i) + (if loops[i] then 0 else 1) <= Rank(loops, n)
  {
    if i < n - 1 { RankGrows(loops, i, n - 1); }
  }
}
