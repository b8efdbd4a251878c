/** Splitting weights into chunks of at most a bucket, and merging the chunks back. */
module WeightChunks {
  import opened Sequences
  import opened WeightBuckets

  datatype Option<+T> = None | Some(value: T)

  datatype Chunk = Chunk(name: string, shape: seq<nat>, dtype: DType, offset: nat, size: nat, data: seq<Byte>)

  function Min(a: nat, b: nat): nat { if a < b then a else b }

  function ChunkAt(w: Weight, offset: nat, size: nat): Chunk
    requires offset + size <= |w.bytes|
  {
    Chunk(w.name, w.shape, w.dtype, offset, size, w.bytes[offset..offset + size])
  }

  /** The chunks of one weight from an offset on. */
  function ChunksFrom(w: Weight, bucket: nat, offset: nat): seq<Chunk>
    requires bucket > 0 && offset <= |w.bytes|
    decreases |w.bytes| - offset
  {
    if offset == |w.bytes| then []
    else
      var size := Min(bucket, |w.bytes| - offset);
      [ChunkAt(w, offset, size)] + ChunksFrom(w, bucket, offset + size)
  }

  function Split(ws: seq<Weight>, bucket: nat): seq<Chunk>
    requires bucket > 0
  {
    if ws == [] then [] else Split(ws[..|ws| - 1], bucket) + ChunksFrom(ws[|ws| - 1], bucket, 0)
  }

  method SplitWeightChunks(weights: seq<Weight>, bucket: nat) returns (chunks: seq<Chunk>)
    requires bucket > 0
    ensures chunks == Split(weights, bucket)
  {
    chunks := [];
    for n := 0 to |weights|
      invariant chunks == Split(weights[..n], bucket)
    {
      var w := weights[n];
      var chunkOffset := 0;
      while chunkOffset < |w.bytes|
        invariant chunkOffset <= |w.bytes|
        invariant chunks + ChunksFrom(w, bucket, chunkOffset) == Split(weights[..n], bucket) + ChunksFrom(w, bucket, 0)
      {
        var size := Min(bucket, |w.bytes| - chunkOffset);
        chunks := chunks + [Chunk(w.name, w.shape, w.dtype, chunkOffset, size, w.bytes[chunkOffset..chunkOffset + size])];
        chunkOffset := chunkOffset + size;
      }
      assert weights[..n + 1][..n] == weights[..n];
    }
    assert weights[..|weights|] == weights;
  }

  /** The chunks tile the rest of the weight in order, each a whole bucket but the last, which is not empty. */
  lemma {:induction false} ChunksTile(w: Weight, bucket: nat, offset: nat, i: nat)
    requires bucket > 0 && offset <= |w.bytes| && i < |ChunksFrom(w, bucket, offset)|
    ensures var c := ChunksFrom(w, bucket, offset)[i];
      && 1 <= c.size <= bucket && c.offset + c.size <= |w.bytes|
      && c == ChunkAt(w, c.offset, c.size)
      && (c.offset == if i == 0 then offset
                      else ChunksFrom(w, bucket, offset)[i - 1].offset + ChunksFrom(w, bucket, offset)[i - 1].size)
      && (c.offset + c.size == |w.bytes| <==> i + 1 == |ChunksFrom(w, bucket, offset)|)
      && (i + 1 < |ChunksFrom(w, bucket, offset)| ==> c.size == bucket)
    decreases i
  {
    var size := Min(bucket, |w.bytes| - offset);
    var rest := ChunksFrom(w, bucket, offset + size);
    if i > 0 {
      ChunksTile(w, bucket, offset + size, i - 1);
      assert ChunksFrom(w, bucket, offset)[i] == rest[i - 1];
    }
  }

  lemma {:induction false} ChunksFromCount(w: Weight, bucket: nat, offset: nat)
    requires bucket > 0 && offset <= |w.bytes|
    ensures var n := |ChunksFrom(w, bucket, offset)|;
      n * bucket >= |w.bytes| - offset && (n > 0 ==> (n - 1) * bucket < |w.bytes| - offset)
    decreases |w.bytes| - offset
  {
    if offset < |w.bytes| {
      var size := Min(bucket, |w.bytes| - offset);
      ChunksFromCount(w, bucket, offset + size);
      var n := |ChunksFrom(w, bucket, offset + size)|;
      assert (n + 1) * bucket == n * bucket + bucket;
      assert n > 0 ==> n * bucket == (n - 1) * bucket + bucket;
    }
  }

  /** A weight gives as few chunks as its bytes allow. */
  lemma ChunkCountIsLeast(w: Weight, bucket: nat, m: nat)
    requires bucket > 0
    ensures |ChunksFrom(w, bucket, 0)| * bucket >= |w.bytes|
    ensures m * bucket >= |w.bytes| ==> |ChunksFrom(w, bucket, 0)| <= m
  {
    ChunksFromCount(w, bucket, 0);
    var n := |ChunksFrom(w, bucket, 0)|;
    if m < n { MulMonotone(m, n - 1, bucket); }
  }

  lemma {:induction false} MulMonotone(a: nat, b: nat, c: nat)
    requires a <= b
    ensures a * c <= b * c
  {
    if a < b { MulMonotone(a, b - 1, c); }
  }

  // ----- merging -----

  /** A weight under construction: what its buffer holds so far. */
  datatype Partial = Partial(name: string, shape: seq<nat>, dtype: DType, filled: seq<Byte>)

  /** The merging loop's locals; `ok` turns false where an assertion of the source fails. */
  datatype Merging = Merging(out: seq<Weight>, open_: Option<Partial>, ok: bool)

  function Total(c: Chunk): nat { Numel(c.shape) * c.dtype.itemsize }

  /** One chunk through the merging loop. */
  function MergeStep(m: Merging, c: Chunk, bucket: nat): Merging {
    if !m.ok || |c.data| != c.size || c.offset + c.size > Total(c) then m.(ok := false)
    else if Total(c) <= bucket then
      if m.open_.Some? || c.size != Total(c) then m.(ok := false)
      else m.(out := m.out + [Weight(c.name, c.shape, c.dtype, c.data)])
    else
      var p := if m.open_.Some? then m.open_.value else Partial(c.name, c.shape, c.dtype, []);
      if c.name != p.name || |p.filled| != c.offset || (m.open_.Some? && Numel(p.shape) * p.dtype.itemsize != Total(c)) then
        m.(ok := false)
      else if c.offset + c.size == Total(c) then
        Merging(m.out + [Weight(p.name, p.shape, p.dtype, p.filled + c.data)], None, true)
      else m.(open_ := Some(p.(filled := p.filled + c.data)))
  }

  function Merge(chunks: seq<Chunk>, bucket: nat, from: Merging): Merging {
    if chunks == [] then from else Merge(chunks[1..], bucket, MergeStep(from, chunks[0], bucket))
  }

  lemma {:induction false} MergeAppend(a: seq<Chunk>, b: seq<Chunk>, bucket: nat, from: Merging)
    ensures Merge(a + b, bucket, from) == Merge(b, bucket, Merge(a, bucket, from))
  {
    if a == [] {
      assert a + b == b;
    } else {
      assert (a + b)[1..] == a[1..] + b;
      MergeAppend(a[1..], b, bucket, MergeStep(from, a[0], bucket));
    }
  }

  lemma MergeSnoc(chunks: seq<Chunk>, n: nat, bucket: nat, from: Merging)
    requires n < |chunks|
    ensures Merge(chunks[..n + 1], bucket, from) == MergeStep(Merge(chunks[..n], bucket, from), chunks[n], bucket)
  {
    assert chunks[..n + 1] == chunks[..n] + [chunks[n]];
    MergeAppend(chunks[..n], [chunks[n]], bucket, from);
  }

  const START := Merging([], None, true)

  /** The merging loop, writing chunks into a freshly allocated buffer per weight. */
  method MergeWeightChunks(chunks: seq<Chunk>, bucket: nat) returns (out: seq<Weight>, ok: bool)
    ensures ok <==> Merge(chunks, bucket, START).ok
    ensures ok ==> out == Merge(chunks, bucket, START).out
  {
    out, ok := [], true;
    var merging := false;
    var name, shape, dtype := "", [], DType("", 0);
    var buffer := new Byte[0];
    var offset: nat := 0;
    for n := 0 to |chunks|
      invariant ok && offset <= buffer.Length
      invariant merging ==> buffer.Length == Numel(shape) * dtype.itemsize
      invariant fresh(buffer)
      invariant Merge(chunks[..n], bucket, START)
             == Merging(out, if merging then Some(Partial(name, shape, dtype, buffer[..offset])) else None, true)
    {
      var c := chunks[n];
      MergeSnoc(chunks, n, bucket, START);
      var total := Total(c);
      if |c.data| != c.size || c.offset + c.size > total {
        ok := false;
      } else if total <= bucket {
        if merging || c.size != total {
          ok := false;
        } else {
          out := out + [Weight(c.name, c.shape, c.dtype, c.data)];
        }
      } else {
        if !merging {
          name, shape, dtype, merging, offset := c.name, c.shape, c.dtype, true, 0;
          buffer := new Byte[total];
        }
        if c.name != name || offset != c.offset || buffer.Length != total {
          ok := false;
        } else {
          ghost var filled := buffer[..offset];
          WriteSlice(buffer, c.offset, c.data);
          offset := offset + c.size;
          assert buffer[..offset] == filled + c.data;
          if c.offset + c.size == total {
            assert buffer[..] == buffer[..offset];
            out := out + [Weight(name, shape, dtype, buffer[..])];
            merging := false;
          }
        }
      }
      if !ok {
        StaysFailed(chunks, n + 1, bucket);
        return;
      }
    }
    assert chunks[..|chunks|] == chunks;
  }

  method WriteSlice(buffer: array<Byte>, at: nat, bytes: seq<Byte>)
    requires at + |bytes| <= buffer.Length
    modifies buffer
    ensures buffer[..at + |bytes|] == old(buffer[..at]) + bytes
  {
    for i := 0 to |bytes|
      invariant buffer[..at + i] == old(buffer[..at]) + bytes[..i]
    {
      buffer[at + i] := bytes[i];
      assert buffer[..at + i + 1] == buffer[..at + i] + [bytes[i]];
    }
  }

  lemma {:induction false} FailureSticks(chunks: seq<Chunk>, bucket: nat, from: Merging)
    requires !from.ok
    ensures !Merge(chunks, bucket, from).ok
  {
    if chunks != [] { FailureSticks(chunks[1..], bucket, MergeStep(from, chunks[0], bucket)); }
  }

  lemma StaysFailed(chunks: seq<Chunk>, n: nat, bucket: nat)
    requires n <= |chunks| && !Merge(chunks[..n], bucket, START).ok
    ensures !Merge(chunks, bucket, START).ok
  {
    assert chunks == chunks[..n] + chunks[n..];
    MergeAppend(chunks[..n], chunks[n..], bucket, START);
    FailureSticks(chunks[n..], bucket, Merge(chunks[..n], bucket, START));
  }

  // ----- round trip -----

  function NonEmpty(ws: seq<Weight>): seq<Weight> {
    if ws == [] then []
    else NonEmpty(ws[..|ws| - 1]) + (if ws[|ws| - 1].bytes == [] then [] else [ws[|ws| - 1]])
  }

  /** What the loop holds of a weight when its chunks up to an offset have gone through. */
  function HeldAt(w: Weight, offset: nat): Option<Partial>
    requires offset <= |w.bytes|
  {
    if offset == 0 then None else Some(Partial(w.name, w.shape, w.dtype, w.bytes[..offset]))
  }

  lemma MergeOneChunk(w: Weight, bucket: nat, offset: nat, size: nat, out: seq<Weight>)
    requires w.WellFormed() && offset < |w.bytes| && size == Min(bucket, |w.bytes| - offset) > 0
    requires offset > 0 ==> |w.bytes| > bucket
    ensures MergeStep(Merging(out, HeldAt(w, offset), true), ChunkAt(w, offset, size), bucket)
         == if offset + size == |w.bytes| then Merging(out + [w], None, true)
            else Merging(out, HeldAt(w, offset + size), true)
  {
    assert w.bytes[..offset] + w.bytes[offset..offset + size] == w.bytes[..offset + size];
    assert w.bytes[..|w.bytes|] == w.bytes;
    assert Numel(w.shape) * w.dtype.itemsize == |w.bytes|;
    if offset == 0 { assert w.bytes[0..size] == w.bytes[..size] == [] + w.bytes[..size]; }
  }

  /** Merging the remaining chunks of one weight finishes exactly that weight. */
  lemma {:induction false} MergeOneWeight(w: Weight, bucket: nat, offset: nat, out: seq<Weight>)
    requires bucket > 0 && w.WellFormed() && offset < |w.bytes|
    requires offset > 0 ==> |w.bytes| > bucket
    ensures Merge(ChunksFrom(w, bucket, offset), bucket, Merging(out, HeldAt(w, offset), true))
         == Merging(out + [w], None, true)
    decreases |w.bytes| - offset
  {
    var size := Min(bucket, |w.bytes| - offset);
    var chunks := ChunksFrom(w, bucket, offset);
    assert chunks[0] == ChunkAt(w, offset, size) && chunks[1..] == ChunksFrom(w, bucket, offset + size);
    MergeOneChunk(w, bucket, offset, size, out);
    if offset + size < |w.bytes| {
      MergeOneWeight(w, bucket, offset + size, out);
    }
  }

  /** No assertion of the merging loop fails, and what comes out is every non-empty weight, in order. */
  lemma {:induction false} MergeOfSplit(ws: seq<Weight>, bucket: nat)
    requires bucket > 0 && AllWellFormed(ws)
    ensures Merge(Split(ws, bucket), bucket, START) == Merging(NonEmpty(ws), None, true)
    decreases |ws|
  {
    if ws != [] {
      var front, last := ws[..|ws| - 1], ws[|ws| - 1];
      assert forall w :: w in front ==> w in ws;
      MergeOfSplit(front, bucket);
      MergeAppend(Split(front, bucket), ChunksFrom(last, bucket, 0), bucket, START);
      assert last in ws;
      if last.bytes != [] {
        MergeOneWeight(last, bucket, 0, NonEmpty(front));
      }
    }
  }

  lemma {:induction false} NonEmptyIsAllIff(ws: seq<Weight>)
    ensures |NonEmpty(ws)| <= |ws|
    ensures NonEmpty(ws) == ws <==> forall w :: w in ws ==> w.bytes != []
    decreases |ws|
  {
    if ws != [] {
      var front, last := ws[..|ws| - 1], ws[|ws| - 1];
      NonEmptyIsAllIff(front);
      assert ws == front + [last];
      assert forall w :: w in ws <==> w in front || w == last;
      if last.bytes != [] { SnocEqual(NonEmpty(front), front, last); }
    }
  }

  lemma SnocEqual(a: seq<Weight>, b: seq<Weight>, w: Weight)
    ensures a + [w] == b + [w] <==> a == b
  {
    if a + [w] == b + [w] { assert a == (a + [w])[..|a|] && b == (b + [w])[..|b|]; }
  }

  /** Splitting and merging gives the weights back, at every positive bucket size, exactly when none is empty. */
  lemma SplitMergeRoundTripIff(ws: seq<Weight>, bucket: nat)
    requires bucket > 0 && AllWellFormed(ws)
    ensures Merge(Split(ws, bucket), bucket, START).ok
    ensures Merge(Split(ws, bucket), bucket, START).out == ws <==> forall w :: w in ws ==> w.bytes != []
  {
    MergeOfSplit(ws, bucket);
    NonEmptyIsAllIff(ws);
  }
}
