/** Packing named weights into fixed-size byte buckets, and reading them back by their metadata. */
module WeightBuckets {
  import opened Sequences

  type Byte = bv8

  datatype DType = DType(name: string, itemsize: nat)

  /** A named tensor as its raw bytes. */
  datatype Weight = Weight(name: string, shape: seq<nat>, dtype: DType, bytes: seq<Byte>) {
    predicate WellFormed() { |bytes| == dtype.itemsize * Numel(shape) }
  }

  datatype TensorMeta = TensorMeta(name: string, shape: seq<nat>, dtype: DType, offset: nat)

  function Numel(shape: seq<nat>): nat {
    if shape == [] then 1 else shape[0] * Numel(shape[1..])
  }

  function Size(m: TensorMeta): nat { m.dtype.itemsize * Numel(m.shape) }

  function Bytes(ws: seq<Weight>): seq<Byte> {
    if ws == [] then [] else Bytes(ws[..|ws| - 1]) + ws[|ws| - 1].bytes
  }

  lemma BytesSnoc(ws: seq<Weight>, w: Weight)
    ensures Bytes(ws + [w]) == Bytes(ws) + w.bytes
  {
    assert (ws + [w])[..|ws|] == ws;
  }

  // ----- grouping -----

  /** The buckets the sender fills: a weight that does not fit starts the next bucket. */
  function Fill(ws: seq<Weight>, capacity: nat, current: seq<Weight>): (groups: seq<seq<Weight>>)
    ensures |groups| >= 1
    decreases |ws|
  {
    if ws == [] then [current]
    else if |Bytes(current)| + |ws[0].bytes| > capacity then [current] + Fill(ws[1..], capacity, [ws[0]])
    else Fill(ws[1..], capacity, current + [ws[0]])
  }

  function Grouped(ws: seq<Weight>, capacity: nat): seq<seq<Weight>> { Fill(ws, capacity, []) }

  predicate AllFit(ws: seq<Weight>, capacity: nat) {
    forall w :: w in ws ==> |w.bytes| <= capacity
  }

  /** The buckets hold the weights, each once, in order, and none overflows. */
  lemma {:induction false} FillKeepsWeights(ws: seq<Weight>, capacity: nat, current: seq<Weight>)
    requires AllFit(ws, capacity) && |Bytes(current)| <= capacity
    ensures Flatten(Fill(ws, capacity, current)) == current + ws
    ensures forall g :: g in Fill(ws, capacity, current) ==> |Bytes(g)| <= capacity
    decreases |ws|
  {
    if ws == [] {
      assert [current][1..] == [];
      assert Flatten([current]) == current + Flatten<Weight>([]);
    } else if |Bytes(current)| + |ws[0].bytes| > capacity {
      assert ws[0] in ws;
      assert Bytes([ws[0]]) == ws[0].bytes by { BytesSnoc([], ws[0]); assert [] + [ws[0]] == [ws[0]]; }
      FillKeepsWeights(ws[1..], capacity, [ws[0]]);
      assert ([current] + Fill(ws[1..], capacity, [ws[0]]))[1..] == Fill(ws[1..], capacity, [ws[0]]);
      assert [ws[0]] + ws[1..] == ws;
    } else {
      BytesSnoc(current, ws[0]);
      FillKeepsWeights(ws[1..], capacity, current + [ws[0]]);
      assert current + [ws[0]] + ws[1..] == current + ws;
    }
  }

  lemma {:induction false} FillGoesOnFrom(ws: seq<Weight>, capacity: nat, current: seq<Weight>)
    ensures current <= Fill(ws, capacity, current)[0]
    decreases |ws|
  {
    if ws != [] && |Bytes(current)| + |ws[0].bytes| <= capacity { FillGoesOnFrom(ws[1..], capacity, current + [ws[0]]); }
  }

  /** A bucket is closed only when the next weight does not fit: it, and not a smaller one, starts the next bucket. */
  lemma {:induction false} BucketsAreFull(ws: seq<Weight>, capacity: nat, current: seq<Weight>, i: nat)
    requires i + 1 < |Fill(ws, capacity, current)|
    ensures var g := Fill(ws, capacity, current); g[i + 1] != [] && |Bytes(g[i])| + |g[i + 1][0].bytes| > capacity
    decreases |ws|
  {
    if |Bytes(current)| + |ws[0].bytes| > capacity {
      FillGoesOnFrom(ws[1..], capacity, [ws[0]]);
      if i > 0 { BucketsAreFull(ws[1..], capacity, [ws[0]], i - 1); }
    } else {
      BucketsAreFull(ws[1..], capacity, current + [ws[0]], i);
    }
  }

  // ----- bucket metadata -----

  function Position(metas: seq<TensorMeta>, name: string): (i: nat)
    ensures i <= |metas|
    ensures i < |metas| ==> metas[i].name == name
    ensures forall j :: 0 <= j < i ==> metas[j].name != name
  {
    if metas == [] then 0 else if metas[0].name == name then 0 else 1 + Position(metas[1..], name)
  }

  /** `bucket_meta[name] = meta`: a repeated name overwrites the earlier entry in its place. */
  function PutMeta(metas: seq<TensorMeta>, m: TensorMeta): seq<TensorMeta> {
    var i := Position(metas, m.name);
    if i < |metas| then metas[i := m] else metas + [m]
  }

  function MetaFor(w: Weight, offset: nat): TensorMeta { TensorMeta(w.name, w.shape, w.dtype, offset) }

  /** The metadata of a bucket after its weights went in one by one. */
  function Metas(ws: seq<Weight>): seq<TensorMeta> {
    if ws == [] then []
    else PutMeta(Metas(ws[..|ws| - 1]), MetaFor(ws[|ws| - 1], |Bytes(ws[..|ws| - 1])|))
  }

  predicate DistinctNames(ws: seq<Weight>) {
    forall i, j :: 0 <= i < j < |ws| ==> ws[i].name != ws[j].name
  }

  predicate AllWellFormed(ws: seq<Weight>) {
    forall w :: w in ws ==> w.WellFormed()
  }

  /** Where a weight's bytes start in its bucket. */
  function Offset(ws: seq<Weight>, i: nat): nat
    requires i <= |ws|
  {
    |Bytes(ws[..i])|
  }

  lemma {:induction false} BytesSplit(ws: seq<Weight>, i: nat)
    requires i < |ws|
    ensures Offset(ws, i + 1) == Offset(ws, i) + |ws[i].bytes| <= |Bytes(ws)|
    ensures Bytes(ws)[Offset(ws, i)..Offset(ws, i + 1)] == ws[i].bytes
    decreases |ws|
  {
    var front := ws[..|ws| - 1];
    assert Bytes(ws) == Bytes(front) + ws[|ws| - 1].bytes;
    if i + 1 == |ws| {
      assert ws[..i + 1] == ws && ws[..i] == front;
    } else {
      BytesSplit(front, i);
      assert front[..i] == ws[..i] && front[..i + 1] == ws[..i + 1];
    }
  }

  lemma {:induction false} OffsetsGrow(ws: seq<Weight>, i: nat, j: nat)
    requires i <= j <= |ws|
    ensures Offset(ws, i) <= Offset(ws, j) <= |Bytes(ws)|
    decreases j - i
  {
    assert ws[..|ws|] == ws;
    if i < j {
      BytesSplit(ws, i);
      OffsetsGrow(ws, i + 1, j);
    } else if j < |ws| {
      BytesSplit(ws, j);
    }
  }

  /** With distinct names the metadata lists exactly the bucket's weights with their offsets. */
  lemma {:induction false} MetasOfDistinct(ws: seq<Weight>)
    requires DistinctNames(ws)
    ensures Lists(ws, Metas(ws), |ws|)
    decreases |ws|
  {
    if ws != [] {
      var front := ws[..|ws| - 1];
      MetasOfDistinct(front);
      OffsetsOfFront(ws);
      NewNameGoesLast(Metas(front), front, MetaFor(ws[|ws| - 1], |Bytes(front)|));
      OneMoreListed(ws, Metas(front));
    }
  }

  predicate Lists(ws: seq<Weight>, metas: seq<TensorMeta>, n: nat)
    requires n <= |ws|
  {
    |metas| == n && forall i {:trigger metas[i]} :: 0 <= i < n ==> metas[i] == MetaFor(ws[i], Offset(ws, i))
  }

  lemma OneMoreListed(ws: seq<Weight>, metas: seq<TensorMeta>)
    requires ws != [] && |metas| == |ws| - 1
    requires forall i :: 0 <= i < |metas| ==> metas[i] == MetaFor(ws[i], Offset(ws, i))
    ensures Lists(ws, metas + [MetaFor(ws[|ws| - 1], |Bytes(ws[..|ws| - 1])|)], |ws|)
  {
  }

  lemma OffsetsOfFront(ws: seq<Weight>)
    requires ws != []
    ensures forall i :: 0 <= i < |ws| ==> Offset(ws, i) == Offset(ws[..|ws| - 1], i)
  {
    forall i | 0 <= i < |ws| ensures Offset(ws, i) == Offset(ws[..|ws| - 1], i) {
      assert ws[..|ws| - 1][..i] == ws[..i];
    }
  }

  lemma NewNameGoesLast(metas: seq<TensorMeta>, front: seq<Weight>, m: TensorMeta)
    requires |metas| == |front| && forall i :: 0 <= i < |front| ==> metas[i].name == front[i].name != m.name
    ensures PutMeta(metas, m) == metas + [m]
  {
  }

  predicate HasName(metas: seq<TensorMeta>, name: string) { Position(metas, name) < |metas| }

  lemma {:induction false} MetasKnowEveryName(ws: seq<Weight>)
    ensures forall i :: 0 <= i < |ws| ==> HasName(Metas(ws), ws[i].name)
    ensures |Metas(ws)| <= |ws|
    decreases |ws|
  {
    if ws != [] {
      var front, last := ws[..|ws| - 1], ws[|ws| - 1];
      MetasKnowEveryName(front);
      forall i | 0 <= i < |ws| ensures HasName(Metas(ws), ws[i].name) {
        if i < |front| {
          assert front[i] == ws[i];
          PutKeepsName(Metas(front), MetaFor(last, |Bytes(front)|), ws[i].name);
        } else {
          PutKeepsName(Metas(front), MetaFor(last, |Bytes(front)|), last.name);
        }
      }
    }
  }

  lemma PutKeepsName(metas: seq<TensorMeta>, m: TensorMeta, name: string)
    requires HasName(metas, name) || m.name == name
    ensures HasName(PutMeta(metas, m), name)
  {
    var i := Position(metas, m.name);
    var after := PutMeta(metas, m);
    if m.name == name {
      assert after[i] == m;
    } else {
      assert after[Position(metas, name)].name == name;
    }
  }

  /** A repeated name loses an entry. */
  lemma {:induction false} RepeatedNameLosesAnEntry(ws: seq<Weight>)
    requires !DistinctNames(ws)
    ensures |Metas(ws)| < |ws|
    decreases |ws|
  {
    var front, last := ws[..|ws| - 1], ws[|ws| - 1];
    MetasKnowEveryName(front);
    if !DistinctNames(front) {
      RepeatedNameLosesAnEntry(front);
    } else {
      assert forall i :: 0 <= i < |front| ==> front[i] == ws[i];
      var i, j :| 0 <= i < j < |ws| && ws[i].name == ws[j].name;
      assert j == |front|;
    }
  }

  // ----- reading a bucket back -----

  /** What the receiver yields for one metadata entry. */
  function Slice(m: TensorMeta, buffer: seq<Byte>): Weight
    requires m.offset + Size(m) <= |buffer|
  {
    Weight(m.name, m.shape, m.dtype, buffer[m.offset..m.offset + Size(m)])
  }

  predicate InRange(metas: seq<TensorMeta>, buffer: seq<Byte>) {
    forall m :: m in metas ==> m.offset + Size(m) <= |buffer|
  }

  function Unpack(metas: seq<TensorMeta>, buffer: seq<Byte>): (ws: seq<Weight>)
    requires InRange(metas, buffer)
    ensures |ws| == |metas|
  {
    seq(|metas|, i requires 0 <= i < |metas| => assert metas[i] in metas; Slice(metas[i], buffer))
  }

  /** Every entry stays inside the bytes its bucket uses. */
  lemma {:induction false} MetasInRange(ws: seq<Weight>, buffer: seq<Byte>)
    requires AllWellFormed(ws) && |Bytes(ws)| <= |buffer|
    ensures InRange(Metas(ws), buffer)
    decreases |ws|
  {
    if ws != [] {
      var front, last := ws[..|ws| - 1], ws[|ws| - 1];
      assert forall w :: w in front ==> w in ws;
      MetasInRange(front, buffer);
      assert last in ws;
      forall m | m in Metas(ws) ensures m.offset + Size(m) <= |buffer| {
        assert m in Metas(front) || m == MetaFor(last, |Bytes(front)|);
      }
    }
  }

  /** Bytes of different weights of a bucket never overlap. */
  lemma SpansAreDisjoint(ws: seq<Weight>, i: nat, j: nat)
    requires DistinctNames(ws) && AllWellFormed(ws) && i < j < |ws|
    ensures |Metas(ws)| == |ws|
    ensures Metas(ws)[i].offset + Size(Metas(ws)[i]) <= Metas(ws)[j].offset
    ensures Metas(ws)[j].offset + Size(Metas(ws)[j]) <= |Bytes(ws)|
  {
    MetasOfDistinct(ws);
    assert ws[i] in ws && ws[j] in ws;
    BytesSplit(ws, i);
    BytesSplit(ws, j);
    OffsetsGrow(ws, i + 1, j);
  }

  lemma SliceOfBucket(ws: seq<Weight>, buffer: seq<Byte>, i: nat)
    requires Bytes(ws) <= buffer && i < |ws| && ws[i].WellFormed()
    ensures Offset(ws, i) + |ws[i].bytes| <= |buffer|
    ensures Slice(MetaFor(ws[i], Offset(ws, i)), buffer) == ws[i]
  {
    BytesSplit(ws, i);
    assert buffer[..|Bytes(ws)|] == Bytes(ws);
    assert buffer[Offset(ws, i)..Offset(ws, i + 1)] == Bytes(ws)[Offset(ws, i)..Offset(ws, i + 1)];
  }

  lemma DistinctBucketRoundTrip(ws: seq<Weight>, buffer: seq<Byte>)
    requires AllWellFormed(ws) && Bytes(ws) <= buffer && DistinctNames(ws) && InRange(Metas(ws), buffer)
    ensures Unpack(Metas(ws), buffer) == ws
  {
    MetasOfDistinct(ws);
    forall i | 0 <= i < |ws| ensures Unpack(Metas(ws), buffer)[i] == ws[i] {
      assert ws[i] in ws;
      SliceOfBucket(ws, buffer, i);
    }
  }

  /** A bucket gives back exactly its weights if and only if no name repeats in it. */
  lemma BucketRoundTrip(ws: seq<Weight>, buffer: seq<Byte>)
    requires AllWellFormed(ws) && Bytes(ws) <= buffer
    ensures InRange(Metas(ws), buffer)
    ensures Unpack(Metas(ws), buffer) == ws <==> DistinctNames(ws)
    ensures |Unpack(Metas(ws), buffer)| <= |ws|
    ensures !DistinctNames(ws) ==> |Unpack(Metas(ws), buffer)| < |ws|
  {
    MetasInRange(ws, buffer);
    MetasKnowEveryName(ws);
    if DistinctNames(ws) {
      DistinctBucketRoundTrip(ws, buffer);
    } else {
      RepeatedNameLosesAnEntry(ws);
    }
  }

  predicate DistinctInEachBucket(groups: seq<seq<Weight>>) {
    forall g :: g in groups ==> DistinctNames(g)
  }

  lemma {:induction false} FillMembers(ws: seq<Weight>, capacity: nat, current: seq<Weight>, g: seq<Weight>, w: Weight)
    requires g in Fill(ws, capacity, current) && w in g
    ensures w in ws || w in current
    decreases |ws|
  {
    if ws != [] {
      if |Bytes(current)| + |ws[0].bytes| > capacity {
        if g != current { FillMembers(ws[1..], capacity, [ws[0]], g, w); }
      } else {
        FillMembers(ws[1..], capacity, current + [ws[0]], g, w);
      }
    }
  }

  lemma GroupsAreWellFormed(weights: seq<Weight>, capacity: nat)
    requires AllWellFormed(weights)
    ensures forall g :: g in Grouped(weights, capacity) ==> AllWellFormed(g)
  {
    forall g, w | g in Grouped(weights, capacity) && w in g ensures w.WellFormed() {
      FillMembers(weights, capacity, [], g, w);
    }
  }
}
