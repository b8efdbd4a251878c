/** The broadcast engine: a sender and a receiver that each swap two byte buffers bucket by bucket. */
module HcclEngine {
  import opened Sequences
  import opened WeightBuckets

  /** One broadcast: the bucket metadata, the end mark, and the whole buffer. */
  datatype Message = Message(metas: seq<TensorMeta>, isLast: bool, payload: seq<Byte>)

  /** A message that carries a group of weights: their metadata, and their bytes at the front of the buffer. */
  predicate Carries(m: Message, group: seq<Weight>) {
    m.metas == Metas(group) && Bytes(group) <= m.payload
  }

  /** Messages that carry groups one by one, only the last one marked. */
  predicate Carry(wire: seq<Message>, groups: seq<seq<Weight>>) {
    |wire| == |groups| && forall i :: 0 <= i < |wire| ==> Carries(wire[i], groups[i])
  }

  predicate OnlyLastMarked(wire: seq<Message>) {
    |wire| >= 1 && forall i :: 0 <= i < |wire| ==> (wire[i].isLast <==> i == |wire| - 1)
  }

  /** The sending loop before weight `n`: what was grouped so far, and what is still to come. */
  ghost predicate Progress(ws: seq<Weight>, n: nat, capacity: nat, sealed: seq<seq<Weight>>, current: seq<Weight>)
    requires n <= |ws|
  {
    sealed + Fill(ws[n..], capacity, current) == Grouped(ws, capacity) && AllFit(ws[..n], capacity)
  }

  lemma ProgressStep(ws: seq<Weight>, n: nat, capacity: nat, sealed: seq<seq<Weight>>, current: seq<Weight>)
    requires n < |ws| && Progress(ws, n, capacity, sealed, current) && |ws[n].bytes| <= capacity
    ensures if |Bytes(current)| + |ws[n].bytes| > capacity
            then Progress(ws, n + 1, capacity, sealed + [current], [] + [ws[n]])
            else Progress(ws, n + 1, capacity, sealed, current + [ws[n]])
  {
    var rest := ws[n..];
    assert rest[0] == ws[n] && rest[1..] == ws[n + 1..];
    assert AllFit(ws[..n + 1], capacity) by { assert ws[..n + 1] == ws[..n] + [ws[n]]; }
    if |Bytes(current)| + |ws[n].bytes| > capacity {
      var tail := Fill(ws[n + 1..], capacity, [ws[n]]);
      assert [] + [ws[n]] == [ws[n]];
      assert Fill(rest, capacity, current) == [current] + tail;
      assert sealed + ([current] + tail) == (sealed + [current]) + tail;
    }
  }

  /** The broadcasts so far: none of them the last. */
  predicate Sent(wire: seq<Message>, sealed: seq<seq<Weight>>, capacity: nat) {
    Carry(wire, sealed) && forall i {:trigger wire[i]} :: 0 <= i < |wire| ==> !wire[i].isLast && |wire[i].payload| == capacity
  }

  lemma SentGrows(wire: seq<Message>, sealed: seq<seq<Weight>>, capacity: nat, m: Message, group: seq<Weight>)
    requires Sent(wire, sealed, capacity) && Carries(m, group) && !m.isLast && |m.payload| == capacity
    ensures Sent(wire + [m], sealed + [group], capacity)
  {
  }

  lemma SentEnds(wire: seq<Message>, sealed: seq<seq<Weight>>, capacity: nat, m: Message, group: seq<Weight>)
    requires Sent(wire, sealed, capacity) && Carries(m, group) && m.isLast && |m.payload| == capacity
    ensures Carry(wire + [m], sealed + [group]) && OnlyLastMarked(wire + [m])
    ensures forall i :: 0 <= i < |wire + [m]| ==> |(wire + [m])[i].payload| == capacity
  {
  }

  /** The broadcast that may still be reading the buffer it was started on; its metadata has gone ahead. */
  datatype Flight = NoFlight | InFlight(metas: seq<TensorMeta>)

  /** The messages once the broadcast in flight has read its buffer as the buffer is now. */
  function Landed(wire: seq<Message>, flight: Flight, bytes: seq<Byte>): seq<Message> {
    if flight.InFlight? then wire + [Message(flight.metas, false, bytes)] else wire
  }

  /**
   * The sending loop. A broadcast reads its buffer at any time up to the next synchronization; what it reads is
   * taken there, at the latest moment, so filling must never touch the buffer in flight. The loop stops with
   * `ok == false` where the source's assertion fails: at a weight larger than a bucket.
   */
  method SendWeights(weights: seq<Weight>, capacity: nat, buffer: array<Byte>, other: array<Byte>)
    returns (wire: seq<Message>, ok: bool)
    requires buffer != other && buffer.Length == other.Length == capacity
    modifies buffer, other
    ensures ok <==> AllFit(weights, capacity)
    ensures ok ==> Carry(wire, Grouped(weights, capacity)) && OnlyLastMarked(wire)
    ensures forall i :: 0 <= i < |wire| ==> |wire[i].payload| == capacity
  {
    var sendBuf, recvBuf := buffer, other;
    var metas: seq<TensorMeta>, offset: nat := [], 0;
    var flight := NoFlight;
    wire := [];
    ghost var current: seq<Weight>, sealed: seq<seq<Weight>> := [], [];
    assert weights[0..] == weights;
    for n := 0 to |weights|
      invariant Swapped(buffer, other, sendBuf, recvBuf)
      invariant Filling(metas, offset, sendBuf[..], current)
      invariant Sent(Landed(wire, flight, recvBuf[..]), sealed, capacity)
      invariant Progress(weights, n, capacity, sealed, current)
    {
      var w := weights[n];
      if |w.bytes| <= capacity { ProgressStep(weights, n, capacity, sealed, current); }
      if offset + |w.bytes| > capacity {
        wire := Synchronize(wire, flight, recvBuf);
        flight := InFlight(metas);
        SentGrows(wire, sealed, capacity, Message(metas, false, sendBuf[..]), current);
        sealed := sealed + [current];
        sendBuf, recvBuf := recvBuf, sendBuf;
        metas, offset, current := [], 0, [];
      }
      if offset + |w.bytes| > capacity {
        assert w in weights;
        wire := Synchronize(wire, flight, recvBuf);
        return wire, false;
      }
      metas, offset := AddWeight(sendBuf, metas, offset, w, current);
      current := current + [w];
    }
    assert weights[|weights|..] == [] && weights[..|weights|] == weights;
    wire := Synchronize(wire, flight, recvBuf);
    SentEnds(wire, sealed, capacity, Message(metas, true, sendBuf[..]), current);
    wire := wire + [Message(metas, true, sendBuf[..])];
    ok := true;
  }

  /** The two buffers, either way round. */
  predicate Swapped(first: array<Byte>, second: array<Byte>, sendBuf: array<Byte>, recvBuf: array<Byte>) {
    first != second && ((sendBuf == first && recvBuf == second) || (sendBuf == second && recvBuf == first))
  }

  /** The bucket being filled holds the current group. */
  predicate Filling(metas: seq<TensorMeta>, offset: nat, bytes: seq<Byte>, current: seq<Weight>) {
    metas == Metas(current) && offset == |Bytes(current)| && Bytes(current) <= bytes
  }

  /** The device catches up: a broadcast in flight has read the whole of its buffer. */
  method Synchronize(wire: seq<Message>, flight: Flight, buffer: array<Byte>) returns (after: seq<Message>)
    ensures after == Landed(wire, flight, buffer[..])
  {
    after := wire;
    if flight.InFlight? { after := after + [Message(flight.metas, false, buffer[..])]; }
  }

  /** One weight goes into the bucket: its metadata entry, and its bytes behind those already there. */
  method AddWeight(buffer: array<Byte>, metas: seq<TensorMeta>, offset: nat, w: Weight, ghost current: seq<Weight>)
    returns (metas': seq<TensorMeta>, offset': nat)
    requires Filling(metas, offset, buffer[..], current)
    requires offset + |w.bytes| <= buffer.Length
    modifies buffer
    ensures Filling(metas', offset', buffer[..], current + [w])
  {
    BytesSnoc(current, w);
    assert (current + [w])[..|current|] == current;
    metas' := PutMeta(metas, MetaFor(w, offset));
    CopyInto(buffer, offset, w.bytes);
    offset' := offset + |w.bytes|;
  }

  /** `buffer[offset : offset + n] = bytes`. */
  method CopyInto(buffer: array<Byte>, offset: nat, bytes: seq<Byte>)
    requires offset + |bytes| <= buffer.Length
    modifies buffer
    ensures buffer[..] == old(buffer[..offset]) + bytes + old(buffer[offset + |bytes|..])
  {
    for i := 0 to |bytes|
      invariant buffer[..] == old(buffer[..offset]) + bytes[..i] + old(buffer[offset + i..])
    {
      buffer[offset + i] := bytes[i];
    }
  }

  function Yielded(wire: seq<Message>): seq<Weight>
    requires forall m :: m in wire ==> InRange(m.metas, m.payload)
  {
    if wire == [] then [] else assert wire[0] in wire; Unpack(wire[0].metas, wire[0].payload) + Yielded(wire[1..])
  }

  lemma {:induction false} YieldedSnoc(wire: seq<Message>, m: Message)
    requires forall x :: x in wire + [m] ==> InRange(x.metas, x.payload)
    ensures forall x :: x in wire ==> InRange(x.metas, x.payload)
    ensures m in wire + [m] && Yielded(wire + [m]) == Yielded(wire) + Unpack(m.metas, m.payload)
  {
    assert forall x :: x in wire ==> x in wire + [m];
    if wire == [] {
      assert (wire + [m])[1..] == [];
    } else {
      assert (wire + [m])[1..] == wire[1..] + [m];
      YieldedSnoc(wire[1..], m);
    }
  }

  /**
   * The receiving loop: the next broadcast lands in one buffer before the tensors of the previous one are read
   * from the other. What it yields is what the messages hold, so filling never touches the buffer being read.
   */
  method ReceiveWeights(wire: seq<Message>, capacity: nat, first: array<Byte>, second: array<Byte>)
    returns (out: seq<Weight>)
    requires first != second && first.Length == second.Length == capacity
    requires OnlyLastMarked(wire)
    requires forall m :: m in wire ==> |m.payload| == capacity && InRange(m.metas, m.payload)
    modifies first, second
    ensures out == Yielded(wire)
  {
    var sendBuf, recvBuf := first, second;
    out := [];
    assert wire[0] in wire;
    CopyInto(recvBuf, 0, wire[0].payload);
    var metas, isLast := wire[0].metas, wire[0].isLast;
    var n := 1;
    sendBuf, recvBuf := recvBuf, sendBuf;
    while !isLast
      invariant 1 <= n <= |wire|
      invariant Swapped(first, second, sendBuf, recvBuf)
      invariant metas == wire[n - 1].metas && isLast == wire[n - 1].isLast
      invariant sendBuf[..] == wire[n - 1].payload
      invariant forall m :: m in wire[..n - 1] ==> InRange(m.metas, m.payload)
      invariant out == Yielded(wire[..n - 1])
      decreases |wire| - n
    {
      assert wire[n] in wire && wire[n - 1] in wire;
      CopyInto(recvBuf, 0, wire[n].payload);
      out := out + Unpack(metas, sendBuf[..]);
      assert wire[..n] == wire[..n - 1] + [wire[n - 1]];
      YieldedSnoc(wire[..n - 1], wire[n - 1]);
      metas, isLast := wire[n].metas, wire[n].isLast;
      n := n + 1;
      sendBuf, recvBuf := recvBuf, sendBuf;
    }
    assert wire[n - 1] in wire;
    out := out + Unpack(metas, sendBuf[..]);
    assert wire == wire[..n - 1] + [wire[n - 1]];
    YieldedSnoc(wire[..n - 1], wire[n - 1]);
  }

  lemma {:induction false} YieldedOfGroups(wire: seq<Message>, groups: seq<seq<Weight>>)
    requires Carry(wire, groups)
    requires forall g :: g in groups ==> AllWellFormed(g)
    ensures forall m :: m in wire ==> InRange(m.metas, m.payload)
    ensures DistinctInEachBucket(groups) ==> Yielded(wire) == Flatten(groups)
    ensures |Yielded(wire)| <= |Flatten(groups)|
    ensures !DistinctInEachBucket(groups) ==> |Yielded(wire)| < |Flatten(groups)|
  {
    if wire != [] {
      assert groups[0] in groups && Carries(wire[0], groups[0]);
      BucketRoundTrip(groups[0], wire[0].payload);
      assert forall g :: g in groups[1..] ==> g in groups;
      assert forall i :: 0 <= i < |wire[1..]| ==> wire[1..][i] == wire[i + 1] && groups[1..][i] == groups[i + 1];
      YieldedOfGroups(wire[1..], groups[1..]);
      assert forall m :: m in wire ==> m == wire[0] || m in wire[1..];
      assert forall g :: g in groups ==> g == groups[0] || g in groups[1..];
    }
  }

  /**
   * The receiver yields exactly the sent sequence if and only if no name repeats inside one bucket; distinct names
   * are therefore enough, at any bucket size every weight fits.
   */
  lemma TransferIsFaithfulIff(weights: seq<Weight>, capacity: nat, wire: seq<Message>)
    requires AllWellFormed(weights) && AllFit(weights, capacity)
    requires Carry(wire, Grouped(weights, capacity))
    ensures forall m :: m in wire ==> InRange(m.metas, m.payload)
    ensures Yielded(wire) == weights <==> DistinctInEachBucket(Grouped(weights, capacity))
  {
    FillKeepsWeights(weights, capacity, []);
    assert [] + weights == weights;
    GroupsAreWellFormed(weights, capacity);
    YieldedOfGroups(wire, Grouped(weights, capacity));
  }

  /** Send and receive, end to end, over two pairs of distinct buffers. */
  method Transfer(weights: seq<Weight>, capacity: nat) returns (out: seq<Weight>, ok: bool)
    requires AllWellFormed(weights)
    ensures ok <==> AllFit(weights, capacity)
    ensures ok ==> (out == weights <==> DistinctInEachBucket(Grouped(weights, capacity)))
  {
    var a, b := new Byte[capacity], new Byte[capacity];
    var c, d := new Byte[capacity], new Byte[capacity];
    var wire: seq<Message>;
    out := [];
    wire, ok := SendWeights(weights, capacity, a, b);
    if ok {
      TransferIsFaithfulIff(weights, capacity, wire);
      out := ReceiveWeights(wire, capacity, c, d);
    }
  }
}
