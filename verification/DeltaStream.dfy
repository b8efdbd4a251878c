/** The delta wire: bucketed flushes with one flush of look-ahead, and the receiver that applies them. */
module DeltaStream {
  import opened Sequences
  import opened DeltaEncoding

  datatype Message = FlushMessage(flush: Flush, isLast: bool) | TerminalEmpty

  /** Cap on the elements of one sparse entry. */
  const MAX_ENTRY_ELEMS: nat := 0x400_0000

  predicate IsTerminal(m: Message) { m.TerminalEmpty? || m.isLast }

  function Carried(m: Message): seq<Entry> { if m.FlushMessage? then Decode(m.flush) else [] }

  /** The entries of the first `n` messages. */
  function EntriesUpTo(wire: seq<Message>, n: nat): seq<Entry>
    requires n <= |wire|
  {
    if n == 0 then [] else EntriesUpTo(wire, n - 1) + Carried(wire[n - 1])
  }

  function EntriesOf(wire: seq<Message>): seq<Entry> { EntriesUpTo(wire, |wire|) }

  /** Exactly the last message is terminal, no flush is empty, and an empty marker stands alone. */
  predicate WellFramed(wire: seq<Message>) {
    && |wire| >= 1
    && (forall i :: 0 <= i < |wire| ==> (IsTerminal(wire[i]) <==> i == |wire| - 1))
    && (forall i :: 0 <= i < |wire| && wire[i].FlushMessage? ==> |wire[i].flush.params| > 0)
    && (forall i :: 0 <= i < |wire| && wire[i].TerminalEmpty? ==> |wire| == 1)
  }

  predicate Bounded(e: Entry) { e.Sparse? ==> 1 <= |e.idx| <= MAX_ENTRY_ELEMS }

  function SliceEnd(s: nat, length: nat): (e: nat)
    requires s <= length
    ensures s <= e <= length && (s < length ==> s < e)
  {
    if s + MAX_ENTRY_ELEMS <= length then s + MAX_ENTRY_ELEMS else length
  }

  /** The slices of one parameter's delta, from element `s` on. */
  function Slices(name: string, numel: nat, idx: seq<int>, vals: seq<Elem>, s: nat): seq<Entry>
    requires |idx| == |vals| && s <= |idx|
    decreases |idx| - s
  {
    if s == |idx| then []
    else
      var e := SliceEnd(s, |idx|);
      [Sparse(name, numel, idx[s..e], vals[s..e])] + Slices(name, numel, idx, vals, e)
  }

  lemma {:induction false} EntriesOfLonger(wire: seq<Message>, m: Message, n: nat)
    requires n <= |wire|
    ensures EntriesUpTo(wire + [m], n) == EntriesUpTo(wire, n)
  {
    if n > 0 { EntriesOfLonger(wire, m, n - 1); }
  }

  lemma EntriesSnoc(wire: seq<Message>, m: Message)
    ensures EntriesOf(wire + [m]) == EntriesOf(wire) + Carried(m)
  {
    EntriesOfLonger(wire, m, |wire|);
  }

  /** A stream still open: flushes only, none empty, none marked last. */
  predicate Open(wire: seq<Message>) {
    forall i {:trigger IsOpen(wire[i])} :: 0 <= i < |wire| ==> IsOpen(wire[i])
  }

  predicate IsOpen(m: Message) { m.FlushMessage? && !m.isLast && |m.flush.params| > 0 }

  lemma OpenSnoc(wire: seq<Message>, m: Message)
    requires Open(wire) && IsOpen(m)
    ensures Open(wire + [m])
  {
    forall i | 0 <= i < |wire + [m]| ensures IsOpen((wire + [m])[i]) {
      if i < |wire| { assert IsOpen(wire[i]); }
    }
  }

  lemma ClosedStream(wire: seq<Message>, last: Message)
    requires Open(wire) && IsTerminal(last)
    requires if last.TerminalEmpty? then wire == [] else |last.flush.params| > 0
    ensures WellFramed(wire + [last])
  {
    forall i | 0 <= i < |wire| ensures (wire + [last])[i] == wire[i] && IsOpen(wire[i]) { }
  }

  function Waiting(pending: Option<Flush>): seq<Entry> { if pending.Some? then Decode(pending.value) else [] }

  /** A nonempty bucket as a flush that decodes to it. */
  method FlushOf(dense: bool, bucket: seq<Entry>) returns (flush: Flush)
    requires Uniform(dense, bucket) && bucket != []
    ensures Decode(flush) == bucket && |flush.params| > 0
  {
    flush := AssembleFlush(dense, bucket);
    DecodeOfAssemble(dense, bucket);
    ParamsLength(bucket);
  }

  // ----- buckets -----

  /** The bytes an entry counts for in its bucket: eight per position, and its values. */
  function WireBytes(e: Entry, elementSize: nat): nat {
    match e
    case Sparse(_, _, idx, vals) => |idx| * 8 + |vals| * elementSize
    case Dense(_, _, vals) => |vals| * elementSize
  }

  function BucketBytes(es: seq<Entry>, elementSize: nat): nat {
    if es == [] then 0 else BucketBytes(es[..|es| - 1], elementSize) + WireBytes(es[|es| - 1], elementSize)
  }

  lemma BucketBytesSnoc(es: seq<Entry>, e: Entry, elementSize: nat)
    ensures BucketBytes(es + [e], elementSize) == BucketBytes(es, elementSize) + WireBytes(e, elementSize)
  {
    assert (es + [e])[..|es|] == es;
  }

  /** A bucket that has reached its size. */
  predicate Filled(es: seq<Entry>, bucketSize: nat, elementSize: nat) { BucketBytes(es, elementSize) >= bucketSize }

  /** A bucket that had not reached its size before its last entry. */
  predicate Trimmed(es: seq<Entry>, bucketSize: nat, elementSize: nat) {
    |es| > 1 ==> BucketBytes(es[..|es| - 1], elementSize) < bucketSize
  }

  /** A message cut as soon as it was full. */
  predicate FullMessage(m: Message, bucketSize: nat, elementSize: nat) {
    m.FlushMessage? ==>
      Trimmed(Decode(m.flush), bucketSize, elementSize) && Filled(Decode(m.flush), bucketSize, elementSize)
  }

  predicate AllFull(wire: seq<Message>, bucketSize: nat, elementSize: nat) {
    forall i {:trigger FullMessage(wire[i], bucketSize, elementSize)} :: 0 <= i < |wire| ==>
      FullMessage(wire[i], bucketSize, elementSize)
  }

  /** Flushes are cut as soon as they are full: each but the last reaches the bucket size, and none does so early. */
  predicate Bucketed(wire: seq<Message>, bucketSize: nat, elementSize: nat) {
    && wire != [] && AllFull(wire[..|wire| - 1], bucketSize, elementSize)
    && (wire[|wire| - 1].FlushMessage? ==> Trimmed(Decode(wire[|wire| - 1].flush), bucketSize, elementSize))
  }

  lemma AllFullSnoc(wire: seq<Message>, m: Message, bucketSize: nat, elementSize: nat)
    requires AllFull(wire, bucketSize, elementSize) && FullMessage(m, bucketSize, elementSize)
    ensures AllFull(wire + [m], bucketSize, elementSize)
  {
    forall i | 0 <= i < |wire + [m]| ensures FullMessage((wire + [m])[i], bucketSize, elementSize) {
      if i < |wire| { assert FullMessage(wire[i], bucketSize, elementSize); }
    }
  }

  lemma LastMayBePartial(wire: seq<Message>, m: Message, bucketSize: nat, elementSize: nat)
    requires AllFull(wire, bucketSize, elementSize)
    requires m.FlushMessage? ==> Trimmed(Decode(m.flush), bucketSize, elementSize)
    ensures Bucketed(wire + [m], bucketSize, elementSize)
  {
    assert (wire + [m])[..|wire|] == wire;
  }

  class FlushStream {
    const dense: bool
    const bucketSize: nat
    const elementSize: nat
    var bucket: seq<Entry>
    var bucketBytes: nat
    var pending: Option<Flush>
    var wire: seq<Message>
    /** Everything consumed so far, wherever it waits. */
    ghost var content: seq<Entry>

    /** Nothing consumed is lost, and no bucket went on after it was full; the waiting flush may be a partial one. */
    ghost predicate Shaped()
      reads this
    {
      && content == EntriesOf(wire) + Waiting(pending) + bucket
      && Uniform(dense, bucket)
      && Open(wire)
      && (wire != [] ==> pending.Some?)
      && (pending.Some? ==> |pending.value.params| > 0)
      && bucketBytes == BucketBytes(bucket, elementSize) && Trimmed(bucket, bucketSize, elementSize)
      && AllFull(wire, bucketSize, elementSize)
      && (pending.Some? ==> Trimmed(Decode(pending.value), bucketSize, elementSize))
    }

    ghost predicate PendingIsFull()
      reads this
    {
      pending.Some? ==> Filled(Decode(pending.value), bucketSize, elementSize)
    }

    /** Between entries: whatever was full has been sealed, and the bucket is not full. */
    ghost predicate Valid()
      reads this
    {
      Shaped() && PendingIsFull() && (bucket != [] ==> bucketBytes < bucketSize)
    }

    constructor (dense: bool, bucketSize: nat, elementSize: nat)
      ensures Valid() && content == [] && this.dense == dense
      ensures this.bucketSize == bucketSize && this.elementSize == elementSize
    {
      this.dense, this.bucketSize, this.elementSize := dense, bucketSize, elementSize;
      bucket, bucketBytes, pending, wire, content := [], 0, None, [], [];
    }

    method Emit(isLast: bool)
      modifies this`pending, this`wire
      ensures pending == None
      ensures wire == old(wire) + if old(pending).Some? then [FlushMessage(old(pending).value, isLast)] else []
      ensures EntriesOf(wire) == old(EntriesOf(wire) + Waiting(pending))
    {
      if pending.Some? {
        EntriesSnoc(wire, FlushMessage(pending.value, isLast));
        wire := wire + [FlushMessage(pending.value, isLast)];
        pending := None;
      }
    }

    /** Close the bucket: the flush before it goes out, as it cannot be the last, and the bucket waits its turn. */
    method Seal()
      requires Shaped() && PendingIsFull()
      modifies this
      ensures Shaped() && content == old(content) && bucket == []
      ensures if old(bucket) == [] then pending == old(pending) && wire == old(wire)
              else pending.Some? && Decode(pending.value) == old(bucket)
    {
      if bucket == [] { return; }
      var flush := FlushOf(dense, bucket);
      if pending.Some? {
        OpenSnoc(wire, FlushMessage(pending.value, false));
        AllFullSnoc(wire, FlushMessage(pending.value, false), bucketSize, elementSize);
      }
      Emit(false);
      pending, bucket, bucketBytes := Some(flush), [], 0;
    }

    /** An entry joins the bucket, which is sealed at once when it is full. */
    method Append(e: Entry, bytes: nat)
      requires Valid() && EntryOk(e) && e.Dense? == dense && bytes == WireBytes(e, elementSize)
      modifies this
      ensures Valid() && content == old(content) + [e]
    {
      BucketBytesSnoc(bucket, e, elementSize);
      assert (bucket + [e])[..|bucket|] == bucket;
      bucket := bucket + [e];
      bucketBytes := bucketBytes + bytes;
      content := content + [e];
      if bucketBytes >= bucketSize { Seal(); }
    }

    /** One parameter's changes enter the stream, in slices of bounded size. */
    method Consume(name: string, numel: nat, idx: seq<int>, vals: seq<Elem>)
      requires Valid() && !dense && |idx| == |vals| && InRange(idx, numel)
      modifies this
      ensures Valid() && content == old(content) + Slices(name, numel, idx, vals, 0)
    {
      var s: nat := 0;
      ghost var before := content;
      while s < |idx|
        invariant s <= |idx| && Valid() && SlicedUpTo(before, name, numel, idx, vals, s, content)
      {
        s := ConsumeSlice(name, numel, idx, vals, s, before);
      }
    }

    method ConsumeSlice(name: string, numel: nat, idx: seq<int>, vals: seq<Elem>, s: nat, ghost before: seq<Entry>)
      returns (e: nat)
      requires Valid() && !dense && |idx| == |vals| && InRange(idx, numel) && s < |idx|
      requires SlicedUpTo(before, name, numel, idx, vals, s, content)
      modifies this
      ensures e == SliceEnd(s, |idx|) && Valid() && SlicedUpTo(before, name, numel, idx, vals, e, content)
    {
      e := SliceEnd(s, |idx|);
      var entry := Sparse(name, numel, idx[s..e], vals[s..e]);
      SliceSplits(before, name, numel, idx, vals, s, content);
      Append(entry, (e - s) * 8 + (e - s) * elementSize);
    }

    method BucketDense(name: string, flat: Tensor)
      requires Valid() && dense
      modifies this
      ensures Valid() && content == old(content) + [Dense(name, |flat|, flat)]
    {
      Append(Dense(name, |flat|, flat), |flat| * elementSize);
    }

    /** The end of the stream: the waiting flush is the last, or an empty marker when there was none at all. */
    method Finish()
      requires Valid()
      modifies this
      ensures WellFramed(wire) && EntriesOf(wire) == old(content) && Bucketed(wire, bucketSize, elementSize)
    {
      Seal();
      if pending.Some? {
        ClosedStream(wire, FlushMessage(pending.value, true));
        LastMayBePartial(wire, FlushMessage(pending.value, true), bucketSize, elementSize);
        Emit(true);
      } else {
        ClosedStream(wire, TerminalEmpty);
        LastMayBePartial(wire, TerminalEmpty, bucketSize, elementSize);
        EntriesSnoc(wire, TerminalEmpty);
        wire := wire + [TerminalEmpty];
      }
    }
  }

  /** Everything up to element `s` has been consumed. */
  predicate SlicedUpTo(before: seq<Entry>, name: string, numel: nat, idx: seq<int>, vals: seq<Elem>, s: nat, content: seq<Entry>)
    requires |idx| == |vals| && s <= |idx|
  {
    content + Slices(name, numel, idx, vals, s) == before + Slices(name, numel, idx, vals, 0)
  }

  lemma SliceSplits(before: seq<Entry>, name: string, numel: nat, idx: seq<int>, vals: seq<Elem>, s: nat, content: seq<Entry>)
    requires |idx| == |vals| && s < |idx| && InRange(idx, numel) && SlicedUpTo(before, name, numel, idx, vals, s, content)
    ensures var e := SliceEnd(s, |idx|);
      var entry := Sparse(name, numel, idx[s..e], vals[s..e]);
      EntryOk(entry) && SlicedUpTo(before, name, numel, idx, vals, e, content + [entry])
  {
    var e := SliceEnd(s, |idx|);
    var entry, rest := Sparse(name, numel, idx[s..e], vals[s..e]), Slices(name, numel, idx, vals, e);
    assert content + ([entry] + rest) == content + [entry] + rest;
  }

  /** Every entry of a parameter's slices is non-empty and within the cap. */
  lemma {:induction false} SlicesAreBounded(name: string, numel: nat, idx: seq<int>, vals: seq<Elem>, s: nat)
    requires |idx| == |vals| && s <= |idx|
    ensures forall e :: e in Slices(name, numel, idx, vals, s) ==> e.Sparse? && Bounded(e) && e.name == name
    decreases |idx| - s
  {
    if s < |idx| {
      SlicesAreBounded(name, numel, idx, vals, SliceEnd(s, |idx|));
    }
  }

  /** Slices are as long as the cap allows: only a parameter's last one is shorter. */
  lemma {:induction false} SlicesAreFull(name: string, numel: nat, idx: seq<int>, vals: seq<Elem>, s: nat, i: nat)
    requires |idx| == |vals| && s <= |idx| && i < |Slices(name, numel, idx, vals, s)| - 1
    ensures Slices(name, numel, idx, vals, s)[i].Sparse? && |Slices(name, numel, idx, vals, s)[i].idx| == MAX_ENTRY_ELEMS
    decreases |idx| - s
  {
    var e := SliceEnd(s, |idx|);
    if i > 0 { SlicesAreFull(name, numel, idx, vals, e, i - 1); }
  }

  // ----- receiver -----

  type Model = map<string, Tensor>

  /** The receiving loop: flushes until the terminal message. */
  method ReceiveWeights(wire: seq<Message>) returns (flushes: seq<Flush>)
    requires WellFramed(wire)
    ensures |flushes| == if wire[0].TerminalEmpty? then 0 else |wire|
    ensures forall i :: 0 <= i < |flushes| ==> wire[i] == FlushMessage(flushes[i], i == |wire| - 1)
  {
    flushes := [];
    var n := 0;
    while true
      invariant n == |flushes| < |wire|
      invariant forall i :: 0 <= i < n ==> wire[i] == FlushMessage(flushes[i], false)
      decreases |wire| - n
    {
      var m := wire[n];
      n := n + 1;
      if m.TerminalEmpty? { break; }
      flushes := flushes + [m.flush];
      if m.isLast { break; }
    }
  }

  predicate Accepts(model: Model, e: Entry) {
    EntryOk(e) && e.name in model && |model[e.name]| == e.numel
  }

  predicate AcceptsAll(model: Model, es: seq<Entry>) {
    forall i :: 0 <= i < |es| ==> Accepts(model, es[i])
  }

  function Load(model: Model, e: Entry): Model
    requires Accepts(model, e)
  {
    model[e.name := Land(model[e.name], e)]
  }

  /** Entries landing one after the other. */
  function LoadAll(model: Model, es: seq<Entry>): (r: Model)
    requires AcceptsAll(model, es)
    ensures r.Keys == model.Keys && forall k :: k in model ==> |r[k]| == |model[k]|
    decreases |es|
  {
    if es == [] then model
    else LoadAll(Load(model, es[0]), es[1..])
  }

  lemma {:induction false} LoadAllAppend(model: Model, a: seq<Entry>, b: seq<Entry>)
    requires AcceptsAll(model, a + b)
    ensures AcceptsAll(model, a) && AcceptsAll(LoadAll(model, a), b)
    ensures LoadAll(model, a + b) == LoadAll(LoadAll(model, a), b)
    decreases |a|
  {
    assert forall i :: 0 <= i < |a| ==> a[i] == (a + b)[i];
    assert forall i :: 0 <= i < |b| ==> b[i] == (a + b)[|a| + i];
    if a == [] {
      assert a + b == b;
    } else {
      assert (a + b)[1..] == a[1..] + b && (a + b)[0] == a[0];
      LoadAllAppend(Load(model, a[0]), a[1..], b);
    }
  }

  const CHUNK_BYTES: nat := 0x2000_0000

  /** `model.load_weights(chunk)`: one entry after the other. */
  method LoadWeights(model: Model, chunk: seq<Entry>) returns (r: Model)
    requires AcceptsAll(model, chunk)
    ensures r == LoadAll(model, chunk)
  {
    r := model;
    for n := 0 to |chunk|
      invariant AcceptsAll(model, chunk[..n]) && r == LoadAll(model, chunk[..n])
    {
      OneMoreEntry(model, chunk, n);
      r := Load(r, chunk[n]);
    }
    assert chunk[..|chunk|] == chunk;
  }

  lemma OneMoreEntry(model: Model, es: seq<Entry>, n: nat)
    requires n < |es| && AcceptsAll(model, es)
    ensures AcceptsAll(model, es[..n]) && AcceptsAll(model, es[..n + 1])
    ensures Accepts(LoadAll(model, es[..n]), es[n])
    ensures LoadAll(model, es[..n + 1]) == Load(LoadAll(model, es[..n]), es[n])
  {
    assert es[..n + 1] == es[..n] + [es[n]];
    LoadAllAppend(model, es[..n], [es[n]]);
    assert [es[n]][0] == es[n] && [es[n]][1..] == [];
  }

  function EntryBytes(e: Entry, elementSize: nat): nat { e.numel * elementSize }

  function LoadBytes(es: seq<Entry>, elementSize: nat): nat {
    if es == [] then 0 else LoadBytes(es[..|es| - 1], elementSize) + EntryBytes(es[|es| - 1], elementSize)
  }

  /** A chunk in bounds: nonempty, and within the limit unless it is a single entry. */
  predicate ChunkOk(chunk: seq<Entry>, elementSize: nat) {
    chunk != [] && (|chunk| > 1 ==> LoadBytes(chunk, elementSize) <= CHUNK_BYTES)
  }

  /** The next chunk starts with the entry that would have gone over. */
  predicate ChunkClosed(chunk: seq<Entry>, next: seq<Entry>, elementSize: nat) {
    next != [] && LoadBytes(chunk, elementSize) + EntryBytes(next[0], elementSize) > CHUNK_BYTES
  }

  /** Chunks are in bounds, and as long as the limit allows. */
  predicate Chunked(chunks: seq<seq<Entry>>, elementSize: nat) {
    && (forall i {:trigger ChunkOk(chunks[i], elementSize)} :: 0 <= i < |chunks| ==> ChunkOk(chunks[i], elementSize))
    && (forall i {:trigger ChunkClosed(chunks[i - 1], chunks[i], elementSize)} :: 0 < i < |chunks| ==>
          ChunkClosed(chunks[i - 1], chunks[i], elementSize))
  }

  /** The chunks handed over so far, and the one that is open, whose first entry is settled. */
  predicate Chunking(es: seq<Entry>, loads: seq<seq<Entry>>, chunk: seq<Entry>, elementSize: nat) {
    && Joined([], loads, |loads|) + chunk == es
    && (chunk != [] ==> Chunked(loads + [chunk], elementSize))
    && (chunk == [] ==> loads == [])
  }

  lemma ChunkGrows(es: seq<Entry>, loads: seq<seq<Entry>>, chunk: seq<Entry>, e: Entry, elementSize: nat)
    requires Chunking(es, loads, chunk, elementSize)
    requires chunk != [] ==> LoadBytes(chunk, elementSize) + EntryBytes(e, elementSize) <= CHUNK_BYTES
    ensures Chunking(es + [e], loads, chunk + [e], elementSize)
  {
    var longer := chunk + [e];
    assert longer[..|chunk|] == chunk;
    var before, after := loads + [chunk], loads + [longer];
    forall i | 0 <= i < |after| ensures ChunkOk(after[i], elementSize) {
      if i < |loads| && chunk != [] { assert ChunkOk(before[i], elementSize); }
    }
    forall i | 0 < i < |after| ensures ChunkClosed(after[i - 1], after[i], elementSize) {
      assert ChunkClosed(before[i - 1], before[i], elementSize);
    }
  }

  lemma ChunkCloses(es: seq<Entry>, loads: seq<seq<Entry>>, chunk: seq<Entry>, e: Entry, elementSize: nat)
    requires Chunking(es, loads, chunk, elementSize)
    requires chunk != [] && LoadBytes(chunk, elementSize) + EntryBytes(e, elementSize) > CHUNK_BYTES
    ensures Chunking(es + [e], loads + [chunk], [e], elementSize)
  {
    var before, after := loads + [chunk], loads + [chunk] + [[e]];
    JoinedSnoc([], loads, chunk);
    forall i | 0 <= i < |after| ensures ChunkOk(after[i], elementSize) {
      if i < |before| { assert ChunkOk(before[i], elementSize); }
    }
    forall i | 0 < i < |after| ensures ChunkClosed(after[i - 1], after[i], elementSize) {
      if i < |before| { assert ChunkClosed(before[i - 1], before[i], elementSize); }
    }
  }

  /** The chunks have been loaded, and the result is that of loading their entries. */
  ghost predicate Loaded(model: Model, loads: seq<seq<Entry>>, r: Model) {
    var done := Joined([], loads, |loads|);
    AcceptsAll(model, done) && r == LoadAll(model, done)
  }

  /** Applying one flush: entries are handed over in chunks of bounded size, which changes nothing about the result. */
  method ApplyDelta(model: Model, flush: Flush, elementSize: nat) returns (r: Model, loads: seq<seq<Entry>>)
    requires AcceptsAll(model, Decode(flush))
    ensures r == LoadAll(model, Decode(flush))
    ensures Joined([], loads, |loads|) == Decode(flush) && Chunked(loads, elementSize)
  {
    r, loads := ApplyInChunks(model, Decode(flush), elementSize);
  }

  method ApplyInChunks(model: Model, entries: seq<Entry>, elementSize: nat) returns (r: Model, loads: seq<seq<Entry>>)
    requires AcceptsAll(model, entries)
    ensures r == LoadAll(model, entries)
    ensures Joined([], loads, |loads|) == entries && Chunked(loads, elementSize)
  {
    r, loads := model, [];
    var chunk: seq<Entry>, chunkBytes: nat := [], 0;
    ghost var es: seq<Entry> := [];
    for n := 0 to |entries|
      invariant es == entries[..n] && InChunks(model, es, elementSize, r, loads, chunk, chunkBytes)
    {
      assert entries[..n + 1] == entries[..n] + [entries[n]];
      AcceptsPrefix(model, entries, n);
      r, loads, chunk, chunkBytes := ApplyEntry(model, es, elementSize, r, loads, chunk, chunkBytes, entries[n]);
      es := es + [entries[n]];
    }
    assert entries[..|entries|] == entries;
    if chunk != [] {
      r, loads := HandOver(model, es, elementSize, r, loads, chunk, chunkBytes);
    }
  }

  /** After the entries `es`: what has been handed over is loaded, and the open chunk holds the rest. */
  ghost predicate InChunks(model: Model, es: seq<Entry>, elementSize: nat,
    r: Model, loads: seq<seq<Entry>>, chunk: seq<Entry>, chunkBytes: nat)
  {
    Loaded(model, loads, r) && Chunking(es, loads, chunk, elementSize) && chunkBytes == LoadBytes(chunk, elementSize)
  }

  method HandOver(model: Model, ghost es: seq<Entry>, elementSize: nat,
    r: Model, loads: seq<seq<Entry>>, chunk: seq<Entry>, ghost chunkBytes: nat)
    returns (r': Model, loads': seq<seq<Entry>>)
    requires AcceptsAll(model, es) && InChunks(model, es, elementSize, r, loads, chunk, chunkBytes) && chunk != []
    ensures loads' == loads + [chunk] && Loaded(model, loads', r') && Joined([], loads', |loads'|) == es
  {
    ChunkLoads(model, es, loads, chunk, r);
    r' := LoadWeights(r, chunk);
    loads' := loads + [chunk];
  }

  method ApplyEntry(model: Model, ghost es: seq<Entry>, elementSize: nat,
    r: Model, loads: seq<seq<Entry>>, chunk: seq<Entry>, chunkBytes: nat, e: Entry)
    returns (r': Model, loads': seq<seq<Entry>>, chunk': seq<Entry>, chunkBytes': nat)
    requires AcceptsAll(model, es) && InChunks(model, es, elementSize, r, loads, chunk, chunkBytes)
    ensures InChunks(model, es + [e], elementSize, r', loads', chunk', chunkBytes')
  {
    r', loads' := r, loads;
    var nbytes := EntryBytes(e, elementSize);
    if chunk != [] && chunkBytes + nbytes > CHUNK_BYTES {
      ChunkCloses(es, loads, chunk, e, elementSize);
      LoadBytesOfOne(e, elementSize);
      r', loads' := HandOver(model, es, elementSize, r, loads, chunk, chunkBytes);
      chunk', chunkBytes' := [e], nbytes;
    } else {
      ChunkGrows(es, loads, chunk, e, elementSize);
      LoadBytesSnoc(chunk, e, elementSize);
      chunk', chunkBytes' := chunk + [e], chunkBytes + nbytes;
    }
  }

  lemma LoadBytesSnoc(es: seq<Entry>, e: Entry, elementSize: nat)
    ensures LoadBytes(es + [e], elementSize) == LoadBytes(es, elementSize) + EntryBytes(e, elementSize)
  {
    assert (es + [e])[..|es|] == es;
  }

  lemma LoadBytesOfOne(e: Entry, elementSize: nat)
    ensures LoadBytes([e], elementSize) == EntryBytes(e, elementSize)
  {
    assert [e][..0] == [];
    LoadBytesSnoc([], e, elementSize);
  }

  /** The open chunk is accepted after those before it. */
  lemma ChunkLoads(model: Model, es: seq<Entry>, loads: seq<seq<Entry>>, chunk: seq<Entry>, r: Model)
    requires AcceptsAll(model, es) && Joined([], loads, |loads|) + chunk == es && Loaded(model, loads, r)
    ensures AcceptsAll(r, chunk) && Loaded(model, loads + [chunk], LoadAll(r, chunk))
    ensures Joined([], loads + [chunk], |loads| + 1) == es
  {
    LoadAllAppend(model, Joined([], loads, |loads|), chunk);
    JoinedSnoc([], loads, chunk);
  }

  /** Receiving and applying a whole stream is loading its entries in order. */
  method ReceiveAndApply(wire: seq<Message>, model: Model, elementSize: nat) returns (r: Model)
    requires WellFramed(wire) && AcceptsAll(model, EntriesOf(wire))
    ensures r == LoadAll(model, EntriesOf(wire))
  {
    var flushes := ReceiveWeights(wire);
    PartsAreEntries(wire, flushes, |flushes|);
    if wire[0].TerminalEmpty? {
      assert wire == [wire[0]];
      assert EntriesUpTo(wire, 0) == [] && Carried(wire[0]) == [];
    }
    r := ApplyAll(model, Parts(flushes), flushes, elementSize);
  }

  predicate IsFlush(m: Message, flush: Flush) { m.FlushMessage? && m.flush == flush }

  /** Flushes applied one after the other; `parts` are their entries. */
  method ApplyAll(model: Model, ghost parts: seq<seq<Entry>>, flushes: seq<Flush>, elementSize: nat) returns (r: Model)
    requires |parts| == |flushes| && AcceptsAll(model, Joined([], parts, |parts|))
    requires forall i {:trigger parts[i]} :: 0 <= i < |parts| ==> parts[i] == Decode(flushes[i])
    ensures r == LoadAll(model, Joined([], parts, |parts|))
  {
    r := model;
    NothingApplied(model, parts);
    for n := 0 to |flushes|
      invariant AppliedUpTo(model, parts, n, r)
    {
      OneMorePart(model, parts, n, r);
      r := ApplyPart(r, parts[n], flushes[n], elementSize);
    }
  }

  method ApplyPart(before: Model, ghost part: seq<Entry>, flush: Flush, elementSize: nat) returns (r: Model)
    requires part == Decode(flush) && AcceptsAll(before, part)
    ensures r == LoadAll(before, part)
  {
    var loads;
    r, loads := ApplyDelta(before, flush, elementSize);
  }

  ghost predicate AppliedUpTo(model: Model, parts: seq<seq<Entry>>, n: nat, r: Model)
    requires n <= |parts|
  {
    AcceptsAll(model, Joined([], parts, n)) && r == LoadAll(model, Joined([], parts, n))
  }

  lemma NothingApplied(model: Model, parts: seq<seq<Entry>>)
    ensures AppliedUpTo(model, parts, 0, model)
  {
  }

  lemma OneMorePart(model: Model, parts: seq<seq<Entry>>, n: nat, r: Model)
    requires n < |parts| && AcceptsAll(model, Joined([], parts, |parts|)) && AppliedUpTo(model, parts, n, r)
    ensures AcceptsAll(r, parts[n]) && AppliedUpTo(model, parts, n + 1, LoadAll(r, parts[n]))
  {
    JoinedIsPrefix([], parts, n + 1);
    AcceptsPrefix(model, Joined([], parts, |parts|), |Joined([], parts, n + 1)|);
    LoadAllAppend(model, Joined([], parts, n), parts[n]);
  }

  lemma AcceptsPrefix(model: Model, es: seq<Entry>, n: nat)
    requires AcceptsAll(model, es) && n <= |es|
    ensures AcceptsAll(model, es[..n])
  {
  }

  /** What the flushes carry, one part each. */
  ghost function Parts(flushes: seq<Flush>): seq<seq<Entry>> {
    seq(|flushes|, i requires 0 <= i < |flushes| => Decode(flushes[i]))
  }

  lemma {:induction false} PartsAreEntries(wire: seq<Message>, flushes: seq<Flush>, n: nat)
    requires n <= |flushes| <= |wire|
    requires forall i {:trigger IsFlush(wire[i], flushes[i])} :: 0 <= i < |flushes| ==> IsFlush(wire[i], flushes[i])
    ensures Joined([], Parts(flushes), n) == EntriesUpTo(wire, n)
  {
    if n > 0 {
      PartsAreEntries(wire, flushes, n - 1);
      assert IsFlush(wire[n - 1], flushes[n - 1]);
    }
  }
}
