/**
 * The sharded delta engine: every rank diffs its own shard against its snapshot, rank 0 gathers the changes in
 * batches and streams them, and the receiver ends with the trainer's weights.
 */
module DeltaEngine {
  import opened Sequences
  import opened DeltaEncoding
  import opened DeltaStream

  /** One rank's piece of a parameter: where it starts in the flat tensor and whether this rank contributes it. */
  datatype Shard = Shard(offset: nat, contributes: bool, local: Tensor)

  /** A parameter as the ranks of rank 0's gather group see it; no group means rank 0 alone has it all. */
  datatype Param = Param(name: string, numel: nat, group: Option<nat>, shards: seq<Shard>)

  /** A rank's changed positions (in the full tensor) and values. */
  datatype Delta = Delta(idx: seq<int>, vals: seq<Elem>)

  // ----- the full tensor behind the shards -----

  predicate CoveredBy(s: Shard, p: int) { s.contributes && s.offset <= p < s.offset + |s.local| }

  /** Some contributing shard holds position `p`. */
  predicate Covered(shards: seq<Shard>, p: int) {
    exists r :: 0 <= r < |shards| && CoveredBy(shards[r], p)
  }

  /** The value at a position of the flat tensor, from the first shard that holds it. */
  function ValueAt(shards: seq<Shard>, r: nat, p: int): Elem
    requires r <= |shards|
    decreases |shards| - r
  {
    if r == |shards| then EMPTY
    else if CoveredBy(shards[r], p) then shards[r].local[p - shards[r].offset]
    else ValueAt(shards, r + 1, p)
  }

  function FullOf(p: Param): (t: Tensor)
    ensures |t| == p.numel
  {
    seq(p.numel, i => ValueAt(p.shards, 0, i))
  }

  /** The contributing shards lie in the flat tensor, agree where they overlap, and cover it. */
  predicate Placed(p: Param) {
    && (forall r {:trigger Agrees(p, r)} :: 0 <= r < |p.shards| ==> Agrees(p, r))
    && (forall i {:trigger Covered(p.shards, i)} :: 0 <= i < p.numel ==> Covered(p.shards, i))
  }

  /** Shard `r`, if it contributes, holds its part of the flat tensor. */
  predicate Agrees(p: Param, r: nat)
    requires r < |p.shards|
  {
    var s := p.shards[r];
    s.contributes ==>
      s.offset + |s.local| <= p.numel && forall i :: 0 <= i < |s.local| ==> FullOf(p)[s.offset + i] == s.local[i]
  }

  /** Two syncs see the same placement of a parameter; only the values move. */
  predicate SameLayout(p: Param, q: Param) {
    && p.name == q.name && p.numel == q.numel && p.group == q.group && |p.shards| == |q.shards|
    && forall r :: 0 <= r < |p.shards| ==>
         && p.shards[r].offset == q.shards[r].offset
         && p.shards[r].contributes == q.shards[r].contributes
         && |p.shards[r].local| == |q.shards[r].local|
  }

  // ----- per-rank diff -----

  function Shift(idx: seq<nat>, offset: nat): (r: seq<int>)
    ensures |r| == |idx|
  {
    seq(|idx|, i requires 0 <= i < |idx| => ToInt32(idx[i] + offset))
  }

  function Take(t: Tensor, idx: seq<nat>): (r: seq<Elem>)
    requires forall i :: 0 <= i < |idx| ==> idx[i] < |t|
    ensures |r| == |idx|
  {
    seq(|idx|, i requires 0 <= i < |idx| => t[idx[i]])
  }

  lemma ChangedInRange(now: Tensor, was: Tensor)
    requires |now| == |was|
    ensures forall i :: 0 <= i < |Changed(now, was)| ==> Changed(now, was)[i] < |now|
  {
    forall i | 0 <= i < |Changed(now, was)| ensures Changed(now, was)[i] < |now| {
      assert Changed(now, was)[i] in Changed(now, was);
      ChangedIsExact(now, was, 0, Changed(now, was)[i]);
    }
  }

  /** A rank's contribution: its changed elements in full-tensor coordinates, or nothing. */
  function ShardDelta(s: Shard, snap: Tensor): Delta
    requires |snap| == |s.local|
  {
    if !s.contributes then Delta([], [])
    else
      var lidx := Changed(s.local, snap);
      ChangedInRange(s.local, snap);
      Delta(Shift(lidx, s.offset), Take(s.local, lidx))
  }

  function ShardDeltas(shards: seq<Shard>, snaps: seq<Tensor>): (r: seq<Delta>)
    requires |shards| == |snaps| && forall i :: 0 <= i < |shards| ==> |snaps[i]| == |shards[i].local|
    ensures |r| == |shards| && forall i :: 0 <= i < |r| ==> r[i] == ShardDelta(shards[i], snaps[i])
  {
    seq(|shards|, i requires 0 <= i < |shards| => ShardDelta(shards[i], snaps[i]))
  }

  /** The ranks' pieces stitched together in rank order. */
  function Stitch(parts: seq<Delta>): Delta {
    if parts == [] then Delta([], [])
    else
      var front := Stitch(parts[..|parts| - 1]);
      var last := parts[|parts| - 1];
      Delta(front.idx + last.idx, front.vals + last.vals)
  }

  predicate Even(d: Delta) { |d.idx| == |d.vals| }

  lemma {:induction false} StitchEven(parts: seq<Delta>)
    requires forall d :: d in parts ==> Even(d)
    ensures Even(Stitch(parts))
    decreases |parts|
  {
    if parts != [] {
      assert parts[|parts| - 1] in parts;
      StitchEven(parts[..|parts| - 1]);
    }
  }

  // ----- batched gather -----

  /** One rank's first `n` deltas of a batch, concatenated as they ride the wire. */
  function IdxBlob(row: seq<Delta>, n: nat): seq<int>
    requires n <= |row|
  {
    if n == 0 then [] else IdxBlob(row, n - 1) + row[n - 1].idx
  }

  function ValBlob(row: seq<Delta>, n: nat): seq<Elem>
    requires n <= |row|
  {
    if n == 0 then [] else ValBlob(row, n - 1) + row[n - 1].vals
  }

  /** Column `i` of a batch: every rank's delta of parameter `i`. */
  function Column(rows: seq<seq<Delta>>, i: nat): seq<Delta>
    requires forall r :: 0 <= r < |rows| ==> i < |rows[r]|
  {
    seq(|rows|, r requires 0 <= r < |rows| => rows[r][i])
  }

  predicate AllEven(row: seq<Delta>) { forall r :: 0 <= r < |row| ==> Even(row[r]) }

  lemma {:induction false} BlobsEven(row: seq<Delta>, n: nat)
    requires AllEven(row) && n <= |row|
    ensures |IdxBlob(row, n)| == |ValBlob(row, n)|
  {
    if n > 0 { BlobsEven(row, n - 1); }
  }

  /** Delta `i` sits in the blobs behind the deltas before it. */
  lemma {:induction false} IdxCut(row: seq<Delta>, i: nat, n: nat)
    requires i < n <= |row|
    ensures |IdxBlob(row, i)| + |row[i].idx| <= |IdxBlob(row, n)|
    ensures IdxBlob(row, n)[|IdxBlob(row, i)|..|IdxBlob(row, i)| + |row[i].idx|] == row[i].idx
  {
    if i < n - 1 { IdxCut(row, i, n - 1); }
  }

  lemma {:induction false} ValCut(row: seq<Delta>, i: nat, n: nat)
    requires i < n <= |row|
    ensures |ValBlob(row, i)| + |row[i].vals| <= |ValBlob(row, n)|
    ensures ValBlob(row, n)[|ValBlob(row, i)|..|ValBlob(row, i)| + |row[i].vals|] == row[i].vals
  {
    if i < n - 1 { ValCut(row, i, n - 1); }
  }

  /** Padding to the longest blob with zeros: `pad[:n] = blob`. */
  function Pad<T>(blob: seq<T>, length: nat, zero: T): seq<T>
    requires |blob| <= length
  {
    blob + seq(length - |blob|, _ => zero)
  }

  /**
   * Rank 0's side of the batched gather: blobs padded to one length, the matrix of counts, and slices stitched per
   * parameter. The result is what gathering each parameter on its own would give.
   */
  method GatherVBatched(rows: seq<seq<Delta>>, k: nat) returns (out: seq<Delta>)
    requires forall r :: 0 <= r < |rows| ==> |rows[r]| == k
    requires forall r :: 0 <= r < |rows| ==> AllEven(rows[r])
    ensures |out| == k && forall i :: 0 <= i < k ==> out[i] == Stitch(Column(rows, i))
  {
    var maxN: nat := 0;
    for r := 0 to |rows|
      invariant forall q :: 0 <= q < r ==> |IdxBlob(rows[q], k)| <= maxN
    {
      if |IdxBlob(rows[r], k)| > maxN { maxN := |IdxBlob(rows[r], k)|; }
    }
    out := [];
    for i := 0 to k
      invariant |out| == i && forall j :: 0 <= j < i ==> out[j] == Stitch(Column(rows, j))
    {
      var piece := StitchColumn(rows, i, maxN);
      out := out + [piece];
    }
  }

  /** The slices of one parameter, rank by rank; empty slices are left out. */
  method StitchColumn(rows: seq<seq<Delta>>, i: nat, maxN: nat) returns (piece: Delta)
    requires forall r :: 0 <= r < |rows| ==> i < |rows[r]| && |IdxBlob(rows[r], |rows[r]|)| <= maxN
    requires forall r :: 0 <= r < |rows| ==> AllEven(rows[r])
    ensures piece == Stitch(Column(rows, i))
  {
    ghost var column := Column(rows, i);
    piece := Delta([], []);
    for r := 0 to |rows|
      invariant piece == Stitch(column[..r])
    {
      var cut := SliceOfRank(rows[r], i, maxN);
      assert column[..r + 1] == column[..r] + [cut];
      assert column[..r + 1][..r] == column[..r];
      assert Even(cut);
      if |cut.idx| > 0 {
        piece := Delta(piece.idx + cut.idx, piece.vals + cut.vals);
      } else {
        assert piece.idx + cut.idx == piece.idx && piece.vals + cut.vals == piece.vals;
      }
    }
    assert column[..|rows|] == column;
  }

  /** Parameter `i` out of one rank's padded blobs, by the running sums of its counts. */
  method SliceOfRank(row: seq<Delta>, i: nat, maxN: nat) returns (cut: Delta)
    requires i < |row| && AllEven(row) && |IdxBlob(row, |row|)| <= maxN
    ensures cut == row[i]
  {
    var idxBlob, valBlob := IdxBlob(row, |row|), ValBlob(row, |row|);
    BlobsEven(row, |row|);
    var idxPad, valPad := Pad(idxBlob, maxN, 0), Pad(valBlob, maxN, EMPTY);
    var off := RunningSum(row, i);
    var count := |row[i].idx|;
    IdxCut(row, i, |row|);
    ValCut(row, i, |row|);
    BlobsEven(row, i);
    assert idxPad[off..off + count] == idxBlob[off..off + count];
    assert valPad[off..off + count] == valBlob[off..off + count];
    cut := Delta(idxPad[off..off + count], valPad[off..off + count]);
  }

  /** Where delta `i` starts. */
  method RunningSum(row: seq<Delta>, i: nat) returns (off: nat)
    requires i <= |row|
    ensures off == |IdxBlob(row, i)|
  {
    off := 0;
    for j := 0 to i
      invariant off == |IdxBlob(row, j)|
    {
      off := off + |row[j].idx|;
    }
  }

  /** The dense gather: every contributing shard placed at its flat offset of an uninitialised tensor. */
  method GatherDense(p: Param, scratch: Tensor) returns (r: Tensor)
    requires Placed(p) && |scratch| == p.numel
    ensures r == FullOf(p)
  {
    r := scratch;
    for q := 0 to |p.shards|
      invariant |r| == p.numel
      invariant forall i, j :: 0 <= i < p.numel && 0 <= j < q && CoveredBy(p.shards[j], i) ==> r[i] == FullOf(p)[i]
    {
      var s := p.shards[q];
      assert Agrees(p, q);
      if s.contributes {
        ghost var before := r;
        r := r[..s.offset] + s.local + r[s.offset + |s.local|..];
        forall i | 0 <= i < p.numel ensures r[i] == if CoveredBy(s, i) then FullOf(p)[i] else before[i] {
          if CoveredBy(s, i) { assert r[s.offset + (i - s.offset)] == s.local[i - s.offset]; }
        }
      }
    }
    forall i | 0 <= i < p.numel ensures r[i] == FullOf(p)[i] {
      assert Covered(p.shards, i);
      var j :| 0 <= j < |p.shards| && CoveredBy(p.shards[j], i);
    }
  }

  // ----- what the gathered delta is -----

  function Snapshot(p: Param): (r: seq<Tensor>)
    ensures |r| == |p.shards| && forall i :: 0 <= i < |r| ==> r[i] == p.shards[i].local
  {
    seq(|p.shards|, i requires 0 <= i < |p.shards| => p.shards[i].local)
  }

  /** A parameter's gathered delta: its shards now, against the snapshots taken of an earlier sync. */
  function Gathered(p: Param, q: Param): Delta
    requires SameLayout(p, q)
  {
    Stitch(ShardDeltas(p.shards, Snapshot(q)))
  }

  /** A local position seen from the full tensor. */
  lemma LocalInFull(p: Param, r: nat, l: nat)
    requires Placed(p) && p.numel < INT32_LIMIT && r < |p.shards| && p.shards[r].contributes && l < |p.shards[r].local|
    ensures p.shards[r].offset + l < p.numel && FullOf(p)[p.shards[r].offset + l] == p.shards[r].local[l]
    ensures ToInt32(l + p.shards[r].offset) == p.shards[r].offset + l
  {
    assert Agrees(p, r);
    ToInt32IsExactBelowLimit(l + p.shards[r].offset);
  }

  lemma ShardDeltaRaw(s: Shard, snap: Tensor, j: nat)
    requires |snap| == |s.local| && s.contributes && j < |ShardDelta(s, snap).idx|
    ensures j < |Changed(s.local, snap)| == |ShardDelta(s, snap).vals| == |ShardDelta(s, snap).idx|
    ensures var l := Changed(s.local, snap)[j];
      l < |s.local| && ShardDelta(s, snap).idx[j] == ToInt32(l + s.offset) && ShardDelta(s, snap).vals[j] == s.local[l]
  {
    ChangedInRange(s.local, snap);
  }

  /** Element `j` of a rank's delta: a changed local position, moved into the full tensor. */
  lemma ShardDeltaAt(p: Param, snap: Tensor, r: nat, j: nat)
    requires Placed(p) && p.numel < INT32_LIMIT && r < |p.shards| && |snap| == |p.shards[r].local|
    requires j < |ShardDelta(p.shards[r], snap).idx|
    ensures p.shards[r].contributes && j < |Changed(p.shards[r].local, snap)|
    ensures var s, d, l := p.shards[r], ShardDelta(p.shards[r], snap), Changed(p.shards[r].local, snap)[j];
      && l < |s.local| && |d.idx| == |d.vals|
      && d.idx[j] == s.offset + l < p.numel && d.vals[j] == FullOf(p)[s.offset + l]
  {
    ShardDeltaRaw(p.shards[r], snap, j);
    LocalInFull(p, r, Changed(p.shards[r].local, snap)[j]);
  }

  lemma ShardDeltaIsDrawn(p: Param, snap: Tensor, r: nat)
    requires Placed(p) && p.numel < INT32_LIMIT && r < |p.shards| && |snap| == |p.shards[r].local|
    ensures var d := ShardDelta(p.shards[r], snap); Drawn(d.idx, d.vals, FullOf(p))
  {
    var d := ShardDelta(p.shards[r], snap);
    if p.shards[r].contributes { ChangedInRange(p.shards[r].local, snap); }
    forall j | 0 <= j < |d.idx| ensures 0 <= d.idx[j] < p.numel && d.vals[j] == FullOf(p)[d.idx[j]] {
      ShardDeltaAt(p, snap, r, j);
    }
  }

  /** Seen locally or in the full tensors, a held position changed or it did not. */
  lemma ChangeSeenLocally(p: Param, q: Param, r: nat, i: nat)
    requires Placed(p) && Placed(q) && SameLayout(p, q) && p.numel < INT32_LIMIT && r < |p.shards| && i < p.numel
    requires CoveredBy(p.shards[r], i)
    ensures i - p.shards[r].offset in Changed(p.shards[r].local, q.shards[r].local) <==> FullOf(p)[i] != FullOf(q)[i]
  {
    var l := i - p.shards[r].offset;
    LocalInFull(p, r, l);
    LocalInFull(q, r, l);
    ChangedIsExact(p.shards[r].local, q.shards[r].local, 0, l);
  }

  /** Every changed local position is named. */
  lemma ChangeIsNamed(p: Param, snap: Tensor, r: nat, j: nat)
    requires Placed(p) && p.numel < INT32_LIMIT && r < |p.shards| && |snap| == |p.shards[r].local|
    requires p.shards[r].contributes && j < |Changed(p.shards[r].local, snap)|
    ensures Changed(p.shards[r].local, snap)[j] + p.shards[r].offset in ShardDelta(p.shards[r], snap).idx
  {
    ChangedInRange(p.shards[r].local, snap);
    var d := ShardDelta(p.shards[r], snap);
    assert j < |d.idx|;
    ShardDeltaAt(p, snap, r, j);
    assert d.idx[j] in d.idx;
  }

  /** Every named position is a changed local one. */
  lemma NameIsChange(p: Param, snap: Tensor, r: nat, j: nat)
    requires Placed(p) && p.numel < INT32_LIMIT && r < |p.shards| && |snap| == |p.shards[r].local|
    requires j < |ShardDelta(p.shards[r], snap).idx|
    ensures CoveredBy(p.shards[r], ShardDelta(p.shards[r], snap).idx[j])
    ensures ShardDelta(p.shards[r], snap).idx[j] - p.shards[r].offset in Changed(p.shards[r].local, snap)
  {
    ShardDeltaAt(p, snap, r, j);
    var lidx := Changed(p.shards[r].local, snap);
    assert lidx[j] in lidx;
  }

  lemma NamedOnlyIfChanged(p: Param, snap: Tensor, r: nat, i: int)
    requires Placed(p) && p.numel < INT32_LIMIT && r < |p.shards| && |snap| == |p.shards[r].local|
    requires i in ShardDelta(p.shards[r], snap).idx
    ensures CoveredBy(p.shards[r], i) && i - p.shards[r].offset in Changed(p.shards[r].local, snap)
  {
    var j := IndexOf(ShardDelta(p.shards[r], snap).idx, i);
    NameIsChange(p, snap, r, j);
  }

  lemma NamedIfChanged(p: Param, snap: Tensor, r: nat, i: int)
    requires Placed(p) && p.numel < INT32_LIMIT && r < |p.shards| && |snap| == |p.shards[r].local|
    requires CoveredBy(p.shards[r], i) && i - p.shards[r].offset in Changed(p.shards[r].local, snap)
    ensures i in ShardDelta(p.shards[r], snap).idx
  {
    var j := IndexOf(Changed(p.shards[r].local, snap), i - p.shards[r].offset);
    ChangeIsNamed(p, snap, r, j);
  }

  lemma IndexOf(s: seq<int>, x: int) returns (j: nat)
    requires x in s
    ensures j < |s| && s[j] == x
  {
    j :| 0 <= j < |s| && s[j] == x;
  }

  /** A rank names exactly the positions it holds that changed. */
  lemma ShardDeltaIsExact(p: Param, q: Param, r: nat, i: nat)
    requires Placed(p) && Placed(q) && SameLayout(p, q) && p.numel < INT32_LIMIT && r < |p.shards| && i < p.numel
    ensures i in ShardDelta(p.shards[r], q.shards[r].local).idx
       <==> CoveredBy(p.shards[r], i) && FullOf(p)[i] != FullOf(q)[i]
  {
    var snap := q.shards[r].local;
    if CoveredBy(p.shards[r], i) {
      ChangeSeenLocally(p, q, r, i);
      if i - p.shards[r].offset in Changed(p.shards[r].local, snap) { NamedIfChanged(p, snap, r, i); }
    }
    if i in ShardDelta(p.shards[r], snap).idx { NamedOnlyIfChanged(p, snap, r, i); }
  }

  lemma {:induction false} StitchIsDrawn(parts: seq<Delta>, now: Tensor)
    requires forall r :: 0 <= r < |parts| ==> Drawn(parts[r].idx, parts[r].vals, now)
    ensures Drawn(Stitch(parts).idx, Stitch(parts).vals, now)
    ensures forall i :: i in Stitch(parts).idx <==> exists r :: 0 <= r < |parts| && i in parts[r].idx
    decreases |parts|
  {
    if parts != [] {
      var front, last := parts[..|parts| - 1], parts[|parts| - 1];
      StitchIsDrawn(front, now);
      assert forall r :: 0 <= r < |front| ==> front[r] == parts[r];
    }
  }

  /** The gathered delta is the element-wise diff of the full tensors, however the parameter is sharded. */
  lemma GatheredIsTheFullDiff(p: Param, q: Param)
    requires Placed(p) && Placed(q) && SameLayout(p, q) && p.numel < INT32_LIMIT
    ensures Drawn(Gathered(p, q).idx, Gathered(p, q).vals, FullOf(p))
    ensures forall i :: 0 <= i < p.numel ==> (i in Gathered(p, q).idx <==> FullOf(p)[i] != FullOf(q)[i])
  {
    var parts := ShardDeltas(p.shards, Snapshot(q));
    forall r | 0 <= r < |parts| ensures Drawn(parts[r].idx, parts[r].vals, FullOf(p)) {
      ShardDeltaIsDrawn(p, q.shards[r].local, r);
    }
    StitchIsDrawn(parts, FullOf(p));
    forall i | 0 <= i < p.numel ensures i in Gathered(p, q).idx <==> FullOf(p)[i] != FullOf(q)[i] {
      if i in Gathered(p, q).idx {
        var r :| 0 <= r < |parts| && i in parts[r].idx;
        ShardDeltaIsExact(p, q, r, i);
      }
      if FullOf(p)[i] != FullOf(q)[i] {
        assert Covered(p.shards, i);
        var r :| 0 <= r < |p.shards| && CoveredBy(p.shards[r], i);
        ShardDeltaIsExact(p, q, r, i);
        assert i in parts[r].idx;
      }
    }
  }
}
