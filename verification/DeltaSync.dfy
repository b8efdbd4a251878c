/** The sending engine end to end: seeding, sparse syncs with grouped gathers, and what runs of syncs deliver. */
module DeltaSync {
  import opened Sequences
  import opened DeltaEncoding
  import opened DeltaStream
  import opened DeltaEngine

  type Snapshots = map<string, seq<Tensor>>

  /** A parameter waiting in the gather group, with every rank's delta of it. */
  datatype Item = Item(name: string, numel: nat, group: Option<nat>, row: seq<Delta>)

  predicate ItemOk(it: Item) {
    && (it.group.None? ==> |it.row| == 1)
    && AllEven(it.row)
    && Even(Stitch(it.row))
    && InRange(Stitch(it.row).idx, it.numel)
  }

  predicate ItemsOk(items: seq<Item>) {
    forall i {:trigger ItemOk(items[i])} :: 0 <= i < |items| ==> ItemOk(items[i])
  }

  /** One process group per gather, seen by the same ranks. */
  predicate SameGather(a: Item, b: Item) { a.group == b.group && |a.row| == |b.row| }

  predicate OneGroup(items: seq<Item>) {
    forall i {:trigger SameGather(items[0], items[i])} :: 0 <= i < |items| ==> SameGather(items[0], items[i])
  }

  /** The entries of one gathered delta; uneven pieces never arise. */
  function ItemEntries(it: Item): seq<Entry> {
    var d := Stitch(it.row);
    if Even(d) then Slices(it.name, it.numel, d.idx, d.vals, 0) else []
  }

  /** Each item's entries. */
  function Blocks(items: seq<Item>): seq<seq<Entry>> {
    seq(|items|, i requires 0 <= i < |items| => ItemEntries(items[i]))
  }

  /** `blocks` are the items' entries. */
  predicate AreBlocks(items: seq<Item>, blocks: seq<seq<Entry>>) {
    |blocks| == |items| && forall i {:trigger ItemEntries(items[i])} :: 0 <= i < |items| ==> blocks[i] == ItemEntries(items[i])
  }

  lemma TheyAreBlocks(items: seq<Item>)
    ensures AreBlocks(items, Blocks(items))
  {
  }

  lemma BlocksOfPart(items: seq<Item>, blocks: seq<seq<Entry>>, lo: nat, hi: nat)
    requires AreBlocks(items, blocks) && lo <= hi <= |items|
    ensures AreBlocks(items[lo..hi], blocks[lo..hi])
  {
    forall i | 0 <= i < hi - lo ensures blocks[lo..hi][i] == ItemEntries(items[lo..hi][i]) {
      assert blocks[lo + i] == ItemEntries(items[lo + i]);
    }
  }

  // ----- what the syncs assume of the parameters -----

  /** Names are distinct, shards are placed, and a process group always has the same ranks. */
  predicate WellPlaced(params: seq<Param>) {
    && DistinctNames(params)
    && (forall i {:trigger Sound(params[i])} :: 0 <= i < |params| ==> Sound(params[i]))
    && (forall i, j {:trigger SameGroupSameRanks(params[i], params[j])} ::
          0 <= i < |params| && 0 <= j < |params| ==> SameGroupSameRanks(params[i], params[j]))
  }

  predicate SameGroupSameRanks(p: Param, q: Param) { p.group == q.group ==> |p.shards| == |q.shards| }

  predicate DistinctNames(params: seq<Param>) {
    forall i, j {:trigger params[i].name, params[j].name} :: 0 <= i < j < |params| ==> params[i].name != params[j].name
  }

  predicate Sound(p: Param) { Placed(p) && p.numel < INT32_LIMIT && (p.group.None? ==> OwnedByOne(p)) }

  predicate OwnedByOne(p: Param) { |p.shards| == 1 && p.shards[0].contributes }

  predicate Fits(p: Param, snaps: Snapshots) {
    && p.name in snaps && |snaps[p.name]| == |p.shards|
    && forall r :: 0 <= r < |p.shards| ==> |snaps[p.name][r]| == |p.shards[r].local|
  }

  predicate AllFit(params: seq<Param>, snaps: Snapshots) {
    forall i {:trigger Fits(params[i], snaps)} :: 0 <= i < |params| ==> Fits(params[i], snaps)
  }

  function ItemOf(p: Param, snaps: Snapshots): Item
    requires Fits(p, snaps)
  {
    Item(p.name, p.numel, p.group, ShardDeltas(p.shards, snaps[p.name]))
  }

  function ItemsOf(params: seq<Param>, snaps: Snapshots): seq<Item>
    requires AllFit(params, snaps)
  {
    seq(|params|, i requires 0 <= i < |params| => ItemOf(params[i], snaps))
  }

  predicate ItemIs(p: Param, snaps: Snapshots, item: Item) { Fits(p, snaps) && item == ItemOf(p, snaps) }

  predicate AreItems(params: seq<Param>, snaps: Snapshots, items: seq<Item>) {
    |items| == |params| && forall i {:trigger ItemIs(params[i], snaps, items[i])} :: 0 <= i < |items| ==> ItemIs(params[i], snaps, items[i])
  }

  lemma ItemIsDrawn(p: Param, snaps: Snapshots)
    requires Sound(p) && Fits(p, snaps)
    ensures ItemOk(ItemOf(p, snaps))
    ensures Drawn(Stitch(ItemOf(p, snaps).row).idx, Stitch(ItemOf(p, snaps).row).vals, FullOf(p))
  {
    var row := ItemOf(p, snaps).row;
    forall r | 0 <= r < |row| ensures Drawn(row[r].idx, row[r].vals, FullOf(p)) {
      ShardDeltaIsDrawn(p, snaps[p.name][r], r);
    }
    StitchIsDrawn(row, FullOf(p));
  }

  lemma ItemsAreOk(params: seq<Param>, snaps: Snapshots)
    requires WellPlaced(params) && AllFit(params, snaps)
    ensures ItemsOk(ItemsOf(params, snaps)) && SameRanks(ItemsOf(params, snaps))
  {
    forall i | 0 <= i < |params| ensures ItemOk(ItemOf(params[i], snaps)) {
      ItemIsDrawn(params[i], snaps);
    }
    var items := ItemsOf(params, snaps);
    forall i, j | 0 <= i < |items| && 0 <= j < |items| && items[i].group == items[j].group
      ensures SameGather(items[i], items[j])
    {
      assert SameGroupSameRanks(params[i], params[j]);
    }
  }

  function SparseEntries(params: seq<Param>, snaps: Snapshots): seq<Entry>
    requires AllFit(params, snaps)
  {
    Joined([], Blocks(ItemsOf(params, snaps)), |params|)
  }

  function DenseEntry(p: Param): Entry { Dense(p.name, p.numel, FullOf(p)) }

  function DenseEntries(params: seq<Param>): seq<Entry> {
    seq(|params|, i requires 0 <= i < |params| => DenseEntry(params[i]))
  }

  /** Every rank's shard of every parameter, as of these weights. */
  function SnapshotsOf(params: seq<Param>, n: nat, snaps: Snapshots): Snapshots
    requires n <= |params|
  {
    if n == 0 then snaps else SnapshotsOf(params, n - 1, snaps)[params[n - 1].name := Snapshot(params[n - 1])]
  }

  predicate SeededUpTo(params: seq<Param>, blocks: seq<seq<Entry>>, snaps: Snapshots, n: nat, content: seq<Entry>, now: Snapshots)
    requires n <= |params| == |blocks|
  {
    content == Joined([], blocks, n) && now == SnapshotsOf(params, n, snaps)
  }

  lemma SeededOneMore(params: seq<Param>, blocks: seq<seq<Entry>>, snaps: Snapshots, n: nat, content: seq<Entry>, now: Snapshots)
    requires n < |params| == |blocks| && SeededUpTo(params, blocks, snaps, n, content, now)
    ensures SeededUpTo(params, blocks, snaps, n + 1, content + blocks[n], now[params[n].name := Snapshot(params[n])])
  {
  }

  lemma SnapshotsGrow(params: seq<Param>, n: nat, snaps: Snapshots)
    requires n < |params|
    ensures SnapshotsOf(params, n + 1, snaps) == SnapshotsOf(params, n, snaps)[params[n].name := Snapshot(params[n])]
  {
  }

  /** Snapshots of the first `n` parameters are replaced, others stay. */
  lemma {:induction false} SnapshotsHold(params: seq<Param>, n: nat, snaps: Snapshots, i: nat)
    requires DistinctNames(params) && n <= |params| && i < |params|
    ensures i < n ==>
      params[i].name in SnapshotsOf(params, n, snaps) && SnapshotsOf(params, n, snaps)[params[i].name] == Snapshot(params[i])
    ensures i >= n && params[i].name in snaps ==>
      params[i].name in SnapshotsOf(params, n, snaps) && SnapshotsOf(params, n, snaps)[params[i].name] == snaps[params[i].name]
  {
    if n > 0 { SnapshotsHold(params, n - 1, snaps, i); }
  }

  /** A sole owner's shard is the whole tensor. */
  lemma OwnerHoldsAll(p: Param)
    requires Placed(p) && OwnedByOne(p)
    ensures p.shards[0].offset == 0 && p.shards[0].local == FullOf(p)
  {
    var s := p.shards[0];
    assert Agrees(p, 0);
    assert FullOf(p)[s.offset..s.offset + |s.local|] == s.local;
    if p.numel > 0 {
      assert Covered(p.shards, 0) && Covered(p.shards, p.numel - 1);
    }
    assert s.offset == 0 && |s.local| == p.numel;
  }

  predicate SeedsAs(p: Param, block: seq<Entry>) { Sound(p) && block == [DenseEntry(p)] }

  /** The seed as one entry a parameter. */
  function SeedBlocks(params: seq<Param>): seq<seq<Entry>> {
    seq(|params|, i requires 0 <= i < |params| => [DenseEntry(params[i])])
  }

  lemma {:induction false} SeedIsJoined(params: seq<Param>, n: nat)
    requires n <= |params|
    ensures Joined([], SeedBlocks(params), n) == DenseEntries(params)[..n]
  {
    if n > 0 {
      SeedIsJoined(params, n - 1);
      assert DenseEntries(params)[..n] == DenseEntries(params)[..n - 1] + [DenseEntry(params[n - 1])];
    }
  }

  class DeltaShardedCheckpointEngine {
    const bucketSize: nat
    const elementSize: nat
    const batchGather: int
    var shardSnap: Snapshots
    var shardSeeded: bool
    /** The batches gathered in the current sync. */
    ghost var gathers: seq<seq<Item>>

    constructor (bucketSize: nat, elementSize: nat, batchGather: int)
      ensures shardSnap == map[] && !shardSeeded
    {
      this.bucketSize, this.elementSize, this.batchGather := bucketSize, elementSize, batchGather;
      shardSnap, shardSeeded, gathers := map[], false, [];
    }

    /** The first sync: whole tensors, assembled on rank 0 one parameter at a time. */
    method SendDenseSeed(params: seq<Param>, scratch: Elem) returns (wire: seq<Message>)
      requires WellPlaced(params)
      modifies this
      ensures WellFramed(wire) && EntriesOf(wire) == DenseEntries(params) && Bucketed(wire, bucketSize, elementSize)
      ensures shardSeeded && shardSnap == SnapshotsOf(params, |params|, old(shardSnap))
    {
      var stream := new FlushStream(true, bucketSize, elementSize);
      SeedIsJoined(params, |params|);
      assert DenseEntries(params)[..|params|] == DenseEntries(params);
      SeedAll(stream, params, scratch, SeedBlocks(params));
      shardSeeded := true;
      stream.Finish();
      wire := stream.wire;
    }

    method SeedAll(stream: FlushStream, params: seq<Param>, scratch: Elem, ghost blocks: seq<seq<Entry>>)
      requires stream.Valid() && stream.dense && stream.content == [] && |blocks| == |params|
      requires forall i {:trigger SeedsAs(params[i], blocks[i])} :: 0 <= i < |params| ==> SeedsAs(params[i], blocks[i])
      modifies this`shardSnap, stream
      ensures stream.Valid() && SeededUpTo(params, blocks, old(shardSnap), |params|, stream.content, shardSnap)
    {
      ghost var snaps := shardSnap;
      for n := 0 to |params|
        invariant stream.Valid() && SeededUpTo(params, blocks, snaps, n, stream.content, shardSnap)
      {
        assert SeedsAs(params[n], blocks[n]);
        ghost var content, now := stream.content, shardSnap;
        SeedOne(stream, params[n], scratch, blocks[n]);
        SeededOneMore(params, blocks, snaps, n, content, now);
      }
    }

    method SeedOne(stream: FlushStream, p: Param, scratch: Elem, ghost block: seq<Entry>)
      requires stream.Valid() && stream.dense && SeedsAs(p, block)
      modifies this`shardSnap, stream
      ensures stream.Valid() && stream.content == old(stream.content) + block
      ensures shardSnap == old(shardSnap)[p.name := Snapshot(p)]
    {
      shardSnap := shardSnap[p.name := Snapshot(p)];
      var full := WholeTensor(p, scratch);
      stream.BucketDense(p.name, full);
    }

    /** A group is gathered in one piece, or read directly when rank 0 has everything. */
    method FlushGroup(stream: FlushStream, group: seq<Item>, ghost blocks: seq<seq<Entry>>)
      requires stream.Valid() && !stream.dense && ItemsOk(group) && OneGroup(group) && AreBlocks(group, blocks)
      modifies stream
      ensures stream.Valid() && stream.content == Joined(old(stream.content), blocks, |blocks|)
    {
      if group == [] { return; }
      var gathered := GatherGroup(group);
      forall i | 0 <= i < |group| ensures Ready(group[i], gathered[i], blocks[i]) {
        assert ItemOk(group[i]) && blocks[i] == ItemEntries(group[i]);
      }
      ConsumeAll(stream, group, gathered, blocks);
    }

    method ConsumeAll(stream: FlushStream, group: seq<Item>, gathered: seq<Delta>, ghost blocks: seq<seq<Entry>>)
      requires stream.Valid() && !stream.dense && |group| == |gathered| == |blocks|
      requires forall i :: 0 <= i < |group| ==> Ready(group[i], gathered[i], blocks[i])
      modifies stream
      ensures stream.Valid() && stream.content == Joined(old(stream.content), blocks, |blocks|)
    {
      ghost var start := stream.content;
      for n := 0 to |group|
        invariant stream.Valid() && stream.content == Joined(start, blocks, n)
      {
        ConsumeItem(stream, group[n], gathered[n], blocks[n]);
        assert Joined(start, blocks, n + 1) == Joined(start, blocks, n) + blocks[n];
      }
    }

    method ConsumeItem(stream: FlushStream, it: Item, d: Delta, ghost block: seq<Entry>)
      requires stream.Valid() && !stream.dense && Ready(it, d, block)
      modifies stream
      ensures stream.Valid() && stream.content == old(stream.content) + block
    {
      stream.Consume(it.name, it.numel, d.idx, d.vals);
    }

    /** Every rank's diff of one parameter, and its snapshot brought up to date. */
    method DiffOne(p: Param) returns (item: Item)
      requires Fits(p, shardSnap)
      modifies this`shardSnap
      ensures item == ItemOf(p, old(shardSnap)) && shardSnap == old(shardSnap)[p.name := Snapshot(p)]
    {
      item := ItemOf(p, shardSnap);
      shardSnap := shardSnap[p.name := Snapshot(p)];
    }

    ghost function BatchLimit(): (k: nat)
      ensures k >= 1
    {
      if batchGather >= 1 then batchGather else 1
    }

    /** A group of another process group is flushed before the item joins. */
    method MakeRoom(stream: FlushStream, waiting: seq<Item>, pg: Option<nat>,
      ghost items: seq<Item>, ghost blocks: seq<seq<Entry>>, ghost from: nat, ghost n: nat)
      returns (group: seq<Item>, ghost lo: nat)
      requires stream.Valid() && !stream.dense && ItemsOk(items) && AreBlocks(items, blocks)
      requires Streamed(items, blocks, waiting, from, n, stream.content)
      modifies stream, this`gathers
      ensures stream.Valid() && Streamed(items, blocks, group, lo, n, stream.content)
      ensures if waiting != [] && waiting[|waiting| - 1].group != pg then group == [] && gathers == old(gathers) + [waiting]
              else group == waiting && gathers == old(gathers)
    {
      group, lo := waiting, from;
      if group != [] && group[|group| - 1].group != pg {
        FlushNext(stream, group, items, blocks, lo, n);
        NobodyWaits(items, blocks, n, stream.content);
        group, lo := [], n;
      }
    }

    method Join(stream: FlushStream, waiting: seq<Item>, item: Item,
      ghost items: seq<Item>, ghost blocks: seq<seq<Entry>>, ghost from: nat, ghost n: nat)
      returns (group: seq<Item>, ghost lo: nat)
      requires stream.Valid() && !stream.dense && ItemsOk(items) && AreBlocks(items, blocks) && SameRanks(items)
      requires n < |items| && item == items[n]
      requires Streamed(items, blocks, waiting, from, n, stream.content)
      modifies stream, this`gathers
      ensures stream.Valid() && Streamed(items, blocks, group, lo, n + 1, stream.content)
      ensures var cut := waiting != [] && waiting[|waiting| - 1].group != item.group;
        && group == (if cut then [item] else waiting + [item])
        && gathers == if cut then old(gathers) + [waiting] else old(gathers)
    {
      group, lo := MakeRoom(stream, waiting, item.group, items, blocks, from, n);
      GroupGrows(items, group, lo, n);
      group := group + [item];
    }

    /** A full group is flushed. */
    method FlushIfFull(stream: FlushStream, waiting: seq<Item>,
      ghost items: seq<Item>, ghost blocks: seq<seq<Entry>>, ghost from: nat, ghost n: nat)
      returns (group: seq<Item>, ghost lo: nat)
      requires stream.Valid() && !stream.dense && ItemsOk(items) && AreBlocks(items, blocks)
      requires Streamed(items, blocks, waiting, from, n, stream.content)
      modifies stream, this`gathers
      ensures stream.Valid() && Streamed(items, blocks, group, lo, n, stream.content)
      ensures if |waiting| >= BatchLimit() then group == [] && gathers == old(gathers) + [waiting]
              else group == waiting && gathers == old(gathers)
    {
      group, lo := waiting, from;
      if |group| >= (if batchGather >= 1 then batchGather else 1) {
        FlushNext(stream, group, items, blocks, lo, n);
        NobodyWaits(items, blocks, n, stream.content);
        group, lo := [], n;
      }
    }

    /** The item joins the group. */
    method Enqueue(stream: FlushStream, waiting: seq<Item>, item: Item,
      ghost items: seq<Item>, ghost blocks: seq<seq<Entry>>, ghost from: nat, ghost n: nat)
      returns (group: seq<Item>, ghost lo: nat)
      requires stream.Valid() && !stream.dense && ItemsOk(items) && AreBlocks(items, blocks) && SameRanks(items)
      requires n < |items| && item == items[n]
      requires Streamed(items, blocks, waiting, from, n, stream.content)
      requires GatheringAt(items, n, gathers, waiting, BatchLimit())
      modifies stream, this`gathers
      ensures stream.Valid() && Streamed(items, blocks, group, lo, n + 1, stream.content)
      ensures GatheringAt(items, n + 1, gathers, group, BatchLimit())
    {
      ghost var before := gathers;
      group, lo := Join(stream, waiting, item, items, blocks, from, n);
      ghost var now := group;
      group, lo := FlushIfFull(stream, group, items, blocks, lo, n + 1);
      EnqueueGathers(items, n, before, waiting, now, BatchLimit());
    }

    method FlushNext(stream: FlushStream, group: seq<Item>,
      ghost items: seq<Item>, ghost blocks: seq<seq<Entry>>, ghost lo: nat, ghost n: nat)
      requires stream.Valid() && !stream.dense && ItemsOk(items) && AreBlocks(items, blocks)
      requires Streamed(items, blocks, group, lo, n, stream.content)
      modifies stream, this`gathers
      ensures stream.Valid() && stream.content == Joined([], blocks, n)
      ensures gathers == if group == [] then old(gathers) else old(gathers) + [group]
    {
      BlocksOfPart(items, blocks, lo, n);
      ghost var before, part := stream.content, blocks[lo..n];
      JoinedGoesOn([], blocks, lo, n, n);
      assert Joined(before, part, |part|) == Joined([], blocks, n);
      FlushGroup(stream, group, part);
      if group != [] { gathers := gathers + [group]; }
    }

    /** A later sync: diffs against the snapshots, gathered group by group, streamed as buckets fill. */
    method SendDeltas(params: seq<Param>) returns (wire: seq<Message>)
      requires WellPlaced(params) && AllFit(params, shardSnap)
      modifies this
      ensures WellFramed(wire) && EntriesOf(wire) == SparseEntries(params, old(shardSnap)) && Bucketed(wire, bucketSize, elementSize)
      ensures shardSeeded && shardSnap == SnapshotsOf(params, |params|, old(shardSnap))
      ensures Joined([], gathers, |gathers|) == ItemsOf(params, old(shardSnap)) && Batched(gathers, BatchLimit())
    {
      var stream := new FlushStream(false, bucketSize, elementSize);
      ghost var items := ItemsOf(params, shardSnap);
      ItemsAreOk(params, shardSnap);
      assert AreItems(params, shardSnap, items);
      TheyAreBlocks(items);
      DiffAll(params, stream, items, Blocks(items));
      shardSeeded := true;
      stream.Finish();
      wire := stream.wire;
    }

    method SendWeights(params: seq<Param>, scratch: Elem) returns (wire: seq<Message>)
      requires WellPlaced(params) && (shardSeeded ==> AllFit(params, shardSnap))
      modifies this
      ensures WellFramed(wire) && Bucketed(wire, bucketSize, elementSize)
      ensures EntriesOf(wire) == if old(shardSeeded) then SparseEntries(params, old(shardSnap)) else DenseEntries(params)
      ensures shardSeeded && shardSnap == SnapshotsOf(params, |params|, old(shardSnap))
    {
      if !shardSeeded {
        wire := SendDenseSeed(params, scratch);
      } else {
        wire := SendDeltas(params);
      }
    }

    /** The parameter loop of a sparse sync. */
    method DiffAll(params: seq<Param>, stream: FlushStream, ghost items: seq<Item>, ghost blocks: seq<seq<Entry>>)
      requires DistinctNames(params) && AreItems(params, shardSnap, items)
      requires stream.Valid() && !stream.dense && stream.content == []
      requires ItemsOk(items) && SameRanks(items) && AreBlocks(items, blocks)
      modifies this`shardSnap, this`gathers, stream
      ensures stream.Valid() && stream.content == Joined([], blocks, |blocks|)
      ensures Joined([], gathers, |gathers|) == items && Batched(gathers, BatchLimit())
      ensures shardSnap == SnapshotsOf(params, |params|, old(shardSnap))
    {
      var group: seq<Item> := [];
      gathers := [];
      ghost var lo: nat, snaps := 0, shardSnap;
      NothingGathered(items, BatchLimit());
      for n := 0 to |params|
        invariant stream.Valid() && Streamed(items, blocks, group, lo, n, stream.content)
        invariant GatheringAt(items, n, gathers, group, BatchLimit())
        invariant shardSnap == SnapshotsOf(params, n, snaps)
      {
        assert ItemIs(params[n], snaps, items[n]);
        StillFits(params, snaps, n);
        SnapshotsGrow(params, n, snaps);
        group, lo := DiffAndEnqueue(stream, group, params[n], items, blocks, lo, n);
      }
      LastGather(items, gathers, group, BatchLimit());
      FlushNext(stream, group, items, blocks, lo, |params|);
    }

    method DiffAndEnqueue(stream: FlushStream, waiting: seq<Item>, p: Param,
      ghost items: seq<Item>, ghost blocks: seq<seq<Entry>>, ghost from: nat, ghost n: nat)
      returns (group: seq<Item>, ghost lo: nat)
      requires stream.Valid() && !stream.dense && ItemsOk(items) && AreBlocks(items, blocks) && SameRanks(items)
      requires n < |items| && ItemIs(p, shardSnap, items[n])
      requires Streamed(items, blocks, waiting, from, n, stream.content)
      requires GatheringAt(items, n, gathers, waiting, BatchLimit())
      modifies this`shardSnap, this`gathers, stream
      ensures stream.Valid() && Streamed(items, blocks, group, lo, n + 1, stream.content)
      ensures GatheringAt(items, n + 1, gathers, group, BatchLimit())
      ensures shardSnap == old(shardSnap)[p.name := Snapshot(p)]
    {
      var item := DiffOne(p);
      group, lo := Enqueue(stream, waiting, item, items, blocks, from, n);
    }
  }

  /** A batch within the limit, of one process group. */
  predicate BatchOk(batch: seq<Item>, k: nat) {
    1 <= |batch| <= k && forall i {:trigger batch[i]} :: 0 <= i < |batch| ==> batch[i].group == batch[0].group
  }

  /** A batch ends because it is full or because the next item is of another process group. */
  predicate BatchEnds(batch: seq<Item>, next: seq<Item>, k: nat) {
    batch != [] && next != [] && (|batch| == k || batch[|batch| - 1].group != next[0].group)
  }

  predicate Batched(batches: seq<seq<Item>>, k: nat) {
    && (forall i {:trigger BatchOk(batches[i], k)} :: 0 <= i < |batches| ==> BatchOk(batches[i], k))
    && (forall i {:trigger BatchEnds(batches[i - 1], batches[i], k)} :: 0 < i < |batches| ==> BatchEnds(batches[i - 1], batches[i], k))
  }

  /** The items so far: those gathered, and those waiting, who are fewer than the limit. */
  predicate Gathering(items: seq<Item>, gathers: seq<seq<Item>>, waiting: seq<Item>, k: nat) {
    && Joined([], gathers, |gathers|) + waiting == items && |waiting| < k
    && (if waiting != [] then Batched(gathers + [waiting], k)
        else Batched(gathers, k) && (gathers != [] ==> |gathers[|gathers| - 1]| == k))
  }

  lemma BatchedSnoc(batches: seq<seq<Item>>, batch: seq<Item>, k: nat)
    requires Batched(batches, k) && BatchOk(batch, k)
    requires batches != [] ==> BatchEnds(batches[|batches| - 1], batch, k)
    ensures Batched(batches + [batch], k)
  {
    var longer := batches + [batch];
    forall i | 0 <= i < |longer| ensures BatchOk(longer[i], k) { if i < |batches| { assert BatchOk(batches[i], k); } }
    forall i | 0 < i < |longer| ensures BatchEnds(longer[i - 1], longer[i], k) {
      if i < |batches| { assert BatchEnds(batches[i - 1], batches[i], k); }
    }
  }

  lemma BatchedFront(batches: seq<seq<Item>>, batch: seq<Item>, k: nat)
    requires Batched(batches + [batch], k)
    ensures Batched(batches, k) && BatchOk(batch, k) && (batches != [] ==> BatchEnds(batches[|batches| - 1], batch, k))
  {
    var longer := batches + [batch];
    forall i | 0 <= i < |batches| ensures BatchOk(batches[i], k) { assert BatchOk(longer[i], k); }
    forall i | 0 < i < |batches| ensures BatchEnds(batches[i - 1], batches[i], k) { assert BatchEnds(longer[i - 1], longer[i], k); }
    assert BatchOk(longer[|batches|], k);
    if batches != [] { assert BatchEnds(longer[|batches| - 1], longer[|batches|], k); }
  }

  predicate GatheringAt(items: seq<Item>, n: nat, gathers: seq<seq<Item>>, waiting: seq<Item>, k: nat) {
    n <= |items| && Gathering(items[..n], gathers, waiting, k)
  }

  /** The item joins the group, which is gathered first when it is of another process group, and then if it is full. */
  lemma EnqueueGathers(items: seq<Item>, n: nat, before: seq<seq<Item>>, waiting: seq<Item>, now: seq<Item>, k: nat)
    requires n < |items| && GatheringAt(items, n, before, waiting, k)
    requires now == if waiting != [] && waiting[|waiting| - 1].group != items[n].group then [items[n]] else waiting + [items[n]]
    ensures var gathers := if waiting != [] && waiting[|waiting| - 1].group != items[n].group then before + [waiting] else before;
      if |now| >= k then GatheringAt(items, n + 1, gathers + [now], [], k) else GatheringAt(items, n + 1, gathers, now, k)
  {
    var cut := waiting != [] && waiting[|waiting| - 1].group != items[n].group;
    var gathers := if cut then before + [waiting] else before;
    if waiting != [] { BatchedFront(before, waiting, k); }
    if cut { JoinedSnoc([], before, waiting); }
    assert items[..n + 1] == items[..n] + [items[n]];
    assert Joined([], gathers, |gathers|) + now == items[..n + 1];
    BatchedSnoc(gathers, now, k);
    JoinedSnoc([], gathers, now);
  }

  lemma NothingGathered(items: seq<Item>, k: nat)
    requires k >= 1
    ensures GatheringAt(items, 0, [], [], k)
  {
  }

  lemma LastGather(items: seq<Item>, gathers: seq<seq<Item>>, waiting: seq<Item>, k: nat)
    requires GatheringAt(items, |items|, gathers, waiting, k)
    ensures var all := if waiting == [] then gathers else gathers + [waiting];
      Joined([], all, |all|) == items && Batched(all, k)
  {
    assert items[..|items|] == items;
    if waiting != [] { JoinedSnoc([], gathers, waiting); }
  }

  /** The group holds the latest items, all of one process group. */
  predicate Waits(items: seq<Item>, group: seq<Item>, lo: nat, n: nat) {
    lo <= n <= |items| && group == items[lo..n] && OneGroup(group)
  }

  /** What the group holds is not in the stream yet; everything before it is. */
  predicate Streamed(items: seq<Item>, blocks: seq<seq<Entry>>, group: seq<Item>, lo: nat, n: nat, content: seq<Entry>)
    requires |blocks| == |items|
  {
    Waits(items, group, lo, n) && content == Joined([], blocks, lo)
  }

  lemma NobodyWaits(items: seq<Item>, blocks: seq<seq<Entry>>, n: nat, content: seq<Entry>)
    requires |blocks| == |items| && n <= |items| && content == Joined([], blocks, n)
    ensures Streamed(items, blocks, [], n, n, content)
  {
  }

  lemma GroupGrows(items: seq<Item>, group: seq<Item>, lo: nat, n: nat)
    requires n < |items| && Waits(items, group, lo, n) && SameRanks(items)
    requires group != [] ==> group[|group| - 1].group == items[n].group
    ensures Waits(items, group + [items[n]], lo, n + 1)
  {
    var longer := group + [items[n]];
    if group != [] {
      assert group[0] == items[lo] && group[|group| - 1] == items[n - 1];
      assert SameGather(items[n - 1], items[n]) && SameGather(group[0], group[|group| - 1]);
      forall i | 0 <= i < |longer| ensures SameGather(longer[0], longer[i]) {
        if i < |group| { assert SameGather(group[0], group[i]); }
      }
    }
  }

  /** A process group has the same ranks in every item. */
  predicate SameRanks(items: seq<Item>) {
    forall i, j {:trigger SameGather(items[i], items[j])} ::
      0 <= i < |items| && 0 <= j < |items| && items[i].group == items[j].group ==> SameGather(items[i], items[j])
  }

  /** A gathered delta can be consumed, and its entries are `block`. */
  predicate Ready(it: Item, d: Delta, block: seq<Entry>) {
    Even(d) && InRange(d.idx, it.numel) && block == Slices(it.name, it.numel, d.idx, d.vals, 0)
  }

  /** What rank 0 learns of a group. */
  method GatherGroup(group: seq<Item>) returns (r: seq<Delta>)
    requires group != [] && ItemsOk(group) && OneGroup(group)
    ensures |r| == |group| && forall i :: 0 <= i < |group| ==> r[i] == Stitch(group[i].row)
  {
    assert forall i :: 0 <= i < |group| ==> SameGather(group[0], group[i]);
    if group[0].group.None? {
      r := OwnDeltas(group);
    } else {
      GatheredColumns(group);
      r := GatherVBatched(RowsOf(group), |group|);
    }
  }

  /** One whole tensor on rank 0. */
  method WholeTensor(p: Param, scratch: Elem) returns (full: Tensor)
    requires Placed(p) && (p.group.None? ==> OwnedByOne(p))
    ensures full == FullOf(p)
  {
    if p.group.None? {
      OwnerHoldsAll(p);
      full := p.shards[0].local;
    } else {
      full := GatherDense(p, seq(p.numel, _ => scratch));
    }
  }

  /** Deltas of a group without a process group: rank 0's own. */
  method OwnDeltas(group: seq<Item>) returns (r: seq<Delta>)
    requires ItemsOk(group) && forall i :: 0 <= i < |group| ==> group[i].group.None?
    ensures |r| == |group| && forall i :: 0 <= i < |group| ==> r[i] == Stitch(group[i].row)
  {
    assert forall i :: 0 <= i < |group| ==> ItemOk(group[i]);
    r := seq(|group|, i requires 0 <= i < |group| => group[i].row[0]);
    forall i | 0 <= i < |group| ensures r[i] == Stitch(group[i].row) {
      assert group[i].row == [r[i]];
      assert group[i].row[..0] == [];
    }
  }

  /** The batch from each rank's side. */
  function RowsOf(group: seq<Item>): (rows: seq<seq<Delta>>)
    requires group != [] && OneGroup(group)
    ensures |rows| == |group[0].row| && forall r :: 0 <= r < |rows| ==> |rows[r]| == |group|
  {
    seq(|group[0].row|, r requires 0 <= r < |group[0].row| =>
      seq(|group|, i requires 0 <= i < |group| =>
        assert SameGather(group[0], group[i]);
        group[i].row[r]))
  }

  lemma GatheredColumns(group: seq<Item>)
    requires group != [] && OneGroup(group) && ItemsOk(group)
    ensures forall i :: 0 <= i < |group| ==> Column(RowsOf(group), i) == group[i].row
    ensures forall r :: 0 <= r < |RowsOf(group)| ==> AllEven(RowsOf(group)[r])
  {
    forall i | 0 <= i < |group| ensures Column(RowsOf(group), i) == group[i].row {
      assert SameGather(group[0], group[i]);
    }
    forall r, i | 0 <= r < |RowsOf(group)| && 0 <= i < |group| ensures Even(RowsOf(group)[r][i]) {
      assert SameGather(group[0], group[i]) && ItemOk(group[i]);
    }
  }

  /** Distinct names: the snapshots taken earlier in a sync are not those of the parameter at hand. */
  lemma StillFits(params: seq<Param>, snaps: Snapshots, n: nat)
    requires DistinctNames(params) && n < |params| && Fits(params[n], snaps)
    ensures ItemIs(params[n], SnapshotsOf(params, n, snaps), ItemOf(params[n], snaps))
  {
    SnapshotsHold(params, n, snaps, n);
  }

  /** No entry of a sparse sync is empty or over the cap. */
  lemma {:induction false} SparseEntriesAreBounded(items: seq<Item>, n: nat)
    requires n <= |items|
    ensures forall e :: e in Joined([], Blocks(items), n) ==> e.Sparse? && Bounded(e)
  {
    if n > 0 {
      SparseEntriesAreBounded(items, n - 1);
      var it := items[n - 1];
      var d := Stitch(it.row);
      assert Blocks(items)[n - 1] == ItemEntries(it);
      if Even(d) { SlicesAreBounded(it.name, it.numel, d.idx, d.vals, 0); }
    }
  }
}
