/**
 * One sync over the chain of ranks: every rank reads each bucket out of its predecessor's memory, passes the
 * metadata on, yields the weights and acknowledges. Ranks interleave at every written or copied byte run.
 */
module MooncakeChain {
  import opened Sequences
  import opened WeightBuckets

  /** The message about one bucket: which half holds it, which slot takes the acknowledgement, how long it is. */
  datatype Info = Info(metas: seq<TensorMeta>, half: nat, slot: nat, len: nat, isLast: bool)

  /** Where a rank stands. The first five belong to the sender, the others to a receiver. */
  datatype Pc =
    | Filling(k: nat, j: nat)
    | WaitAck(k: nat)
    | WaitLast(k: nat)
    | SenderDone
    | AwaitInfo(k: nat)
    | AwaitAck(k: nat, info: Info)
    | Reading(k: nat, info: Info, copied: nat)
    | Forwarding(k: nat, info: Info)
    | Yielding(k: nat, info: Info, i: nat)
    | Acking(k: nat, info: Info)
    | ReceiverDone

  datatype Rank = Rank(half0: seq<Byte>, half1: seq<Byte>, slot0: bool, slot1: bool, outbox: seq<Info>, pc: Pc,
                       yielded: seq<Weight>)
  {
    function Half(k: nat): seq<Byte> { Pick(half0, half1, k) }

    function Slot(k: nat): bool { if k % 2 == 0 then slot0 else slot1 }

    function WithHalf(k: nat, bytes: seq<Byte>): Rank {
      if k % 2 == 0 then this.(half0 := bytes) else this.(half1 := bytes)
    }

    function WithSlot(k: nat, set_: bool): Rank {
      if k % 2 == 0 then this.(slot0 := set_) else this.(slot1 := set_)
    }
  }

  function Pick<T>(even: T, odd: T, k: nat): T { if k % 2 == 0 then even else odd }

  datatype Chain = Chain(groups: seq<seq<Weight>>, ranks: seq<Rank>)

  function Group(groups: seq<seq<Weight>>, k: nat): seq<Weight> { if k < |groups| then groups[k] else [] }

  function InfoFor(groups: seq<seq<Weight>>, k: nat): Info {
    Info(Metas(Group(groups, k)), k % 2, k % 2, |Bytes(Group(groups, k))|, k + 1 == |groups|)
  }

  /** `buffer[at : at + n] = bytes`, as far as the buffer reaches. */
  function Splice(buffer: seq<Byte>, at: nat, bytes: seq<Byte>): seq<Byte> {
    if at + |bytes| <= |buffer| then buffer[..at] + bytes + buffer[at + |bytes|..] else buffer
  }

  function ByteAt(buffer: seq<Byte>, i: nat): seq<Byte> { if i < |buffer| then [buffer[i]] else [] }

  function SliceOrEmpty(m: TensorMeta, buffer: seq<Byte>): Weight {
    if m.offset + Size(m) <= |buffer| then Slice(m, buffer) else Weight(m.name, m.shape, m.dtype, [])
  }

  // ----- steps -----

  /** A waiting rank can step only when its acknowledgement or its message is there. */
  predicate CanStep(s: Chain, r: nat) {
    && r < |s.ranks|
    && match s.ranks[r].pc
       case WaitAck(k) => s.ranks[r].Slot(k + 1)
       case WaitLast(k) => s.ranks[r].Slot(k)
       case AwaitAck(k, _) => s.ranks[r].Slot(k)
       case AwaitInfo(_) => r > 0 && s.ranks[r - 1].outbox != []
       case SenderDone => false
       case ReceiverDone => false
       case _ => true
  }

  /** The control flow of both loops: where a rank goes next. */
  function NextPc(groups: seq<seq<Weight>>, pc: Pc, inbox: seq<Info>, isEnd: bool): Pc {
    match pc
    case Filling(k, j) =>
      if j < |Group(groups, k)| then Filling(k, j + 1)
      else if k + 1 >= |groups| then WaitLast(k)
      else if k >= 1 then WaitAck(k)
      else Filling(k + 1, 0)
    case WaitAck(k) => Filling(k + 1, 0)
    case WaitLast(k) => SenderDone
    case AwaitInfo(k) =>
      if inbox == [] then pc
      else if k >= 2 && !isEnd then AwaitAck(k, inbox[0])
      else Reading(k, inbox[0], 0)
    case AwaitAck(k, info) => Reading(k, info, 0)
    case Reading(k, info, copied) => if copied < info.len then Reading(k, info, copied + 1) else Forwarding(k, info)
    case Forwarding(k, info) => Yielding(k, info, 0)
    case Yielding(k, info, i) => if i < |info.metas| then Yielding(k, info, i + 1) else Acking(k, info)
    case Acking(k, info) => if info.isLast then ReceiverDone else AwaitInfo(k + 1)
    case _ => pc
  }

  /** What a rank does to itself in one step; `prev` is the rank it reads from, `isEnd` marks the last rank. */
  function Own(groups: seq<seq<Weight>>, me: Rank, prev: Rank, isEnd: bool): Rank {
    var pc := NextPc(groups, me.pc, prev.outbox, isEnd);
    match me.pc
    case Filling(k, j) =>
      if j < |Group(groups, k)| then
        me.WithHalf(k, Splice(me.Half(k), Offset(Group(groups, k), j), Group(groups, k)[j].bytes)).(pc := pc)
      else me.(outbox := me.outbox + [InfoFor(groups, k)], pc := pc)
    case WaitAck(k) => me.WithSlot(k + 1, false).(pc := pc)
    case WaitLast(k) => me.WithSlot(k, false).(pc := pc)
    case AwaitAck(k, info) => me.WithSlot(k, false).(pc := pc)
    case Reading(k, info, copied) =>
      if copied < info.len then
        me.WithHalf(k, Splice(me.Half(k), copied, ByteAt(prev.Half(info.half), copied))).(pc := pc)
      else me.(pc := pc)
    case Forwarding(k, info) =>
      me.(outbox := if isEnd then me.outbox else me.outbox + [info.(half := k % 2, slot := k % 2)], pc := pc)
    case Yielding(k, info, i) =>
      if i < |info.metas| then
        me.(yielded := me.yielded + [SliceOrEmpty(info.metas[i], me.Half(k))], pc := pc)
      else me.(pc := pc)
    case _ => me.(pc := pc)
  }

  /** What a receiver's step does to its predecessor: take a message, or set an acknowledgement slot. */
  function Upstream(me: Rank, prev: Rank): Rank {
    match me.pc
    case AwaitInfo(_) => if prev.outbox == [] then prev else prev.(outbox := prev.outbox[1..])
    case Acking(_, info) => prev.WithSlot(info.slot, true)
    case _ => prev
  }

  /** The rank that `r` reads from; the sender reads from none. */
  function Source(s: Chain, r: nat): Rank
    requires r < |s.ranks|
  {
    if r > 0 then s.ranks[r - 1] else s.ranks[r]
  }

  function Step(s: Chain, r: nat): Chain
    requires r < |s.ranks|
  {
    var prev := Source(s, r);
    var own := Own(s.groups, s.ranks[r], prev, r + 1 == |s.ranks|);
    if r == 0 then s.(ranks := s.ranks[0 := own])
    else s.(ranks := s.ranks[r - 1 := Upstream(s.ranks[r], prev)][r := own])
  }

  // ----- counters -----

  /** Buckets a rank has announced to its successor. */
  function Sent(pc: Pc, total: nat): nat {
    match pc
    case Filling(k, _) => k
    case WaitAck(k) => k + 1
    case WaitLast(k) => k + 1
    case SenderDone => total
    case AwaitInfo(k) => k
    case AwaitAck(k, _) => k
    case Reading(k, _, _) => k
    case Forwarding(k, _) => k
    case Yielding(k, _, _) => k + 1
    case Acking(k, _) => k + 1
    case ReceiverDone => total
  }

  /** Messages a receiver has taken. */
  function Got(pc: Pc, total: nat): nat {
    match pc
    case AwaitInfo(k) => k
    case AwaitAck(k, _) => k + 1
    case Reading(k, _, _) => k + 1
    case Forwarding(k, _) => k + 1
    case Yielding(k, _, _) => k + 1
    case Acking(k, _) => k + 1
    case _ => total
  }

  /** Buckets a receiver has acknowledged. */
  function Acked(pc: Pc, total: nat): nat {
    match pc
    case AwaitInfo(k) => k
    case AwaitAck(k, _) => k
    case Reading(k, _, _) => k
    case Forwarding(k, _) => k
    case Yielding(k, _, _) => k
    case Acking(k, _) => k
    case _ => total
  }

  function Less(k: nat, d: nat): nat { if k < d then 0 else k - d }

  /** Acknowledgements a rank has consumed from its own slots. */
  function Used(pc: Pc, total: nat): nat {
    match pc
    case Filling(k, _) => Less(k, 1)
    case WaitAck(k) => Less(k, 1)
    case WaitLast(k) => Less(k, 1)
    case SenderDone => Less(total, 2)
    case AwaitInfo(k) => Less(k, 2)
    case AwaitAck(k, _) => Less(k, 2)
    case Reading(k, _, _) => Less(k, 1)
    case Forwarding(k, _) => Less(k, 1)
    case Yielding(k, _, _) => Less(k, 1)
    case Acking(k, _) => Less(k, 1)
    case ReceiverDone => Less(total, 2)
  }

  // ----- invariant -----

  /** What a receiver yields for one bucket. */
  function Received(g: seq<Weight>): seq<Weight> {
    if InRange(Metas(g), Bytes(g)) then Unpack(Metas(g), Bytes(g)) else []
  }

  function ReceivedUpTo(groups: seq<seq<Weight>>, k: nat): seq<Weight> {
    if k == 0 then [] else ReceivedUpTo(groups, k - 1) + Received(Group(groups, k - 1))
  }

  predicate GoodGroups(groups: seq<seq<Weight>>, capacity: nat) {
    |groups| >= 1 && forall k {:trigger GoodGroup(groups[k], capacity)} :: 0 <= k < |groups| ==> GoodGroup(groups[k], capacity)
  }

  predicate GoodGroup(g: seq<Weight>, capacity: nat) { AllWellFormed(g) && |Bytes(g)| <= capacity }

  /** One rank by itself: its place in the protocol, its current half, and what it has yielded. */
  predicate RankAt(groups: seq<seq<Weight>>, capacity: nat, isSender: bool, isEnd: bool, even: seq<Byte>, odd: seq<Byte>,
                   pc: Pc, yielded: seq<Weight>)
  {
    && |even| == |odd| == capacity
    && match pc
       case Filling(k, j) => isSender && k < |groups| && j <= |groups[k]| && Bytes(groups[k][..j]) <= Pick(even, odd, k)
       case WaitAck(k) => isSender && 1 <= k && k + 1 < |groups|
       case WaitLast(k) => isSender && k + 1 == |groups|
       case SenderDone => isSender
       case AwaitInfo(k) => !isSender && k < |groups| && yielded == ReceivedUpTo(groups, k)
       case AwaitAck(k, info) =>
         !isSender && !isEnd && 2 <= k < |groups| && info == InfoFor(groups, k) && yielded == ReceivedUpTo(groups, k)
       case Reading(k, info, copied) =>
         && !isSender && k < |groups| && info == InfoFor(groups, k) && copied <= info.len
         && Bytes(groups[k])[..copied] <= Pick(even, odd, k)
         && yielded == ReceivedUpTo(groups, k)
       case Forwarding(k, info) =>
         !isSender && k < |groups| && info == InfoFor(groups, k) && Bytes(groups[k]) <= Pick(even, odd, k)
         && yielded == ReceivedUpTo(groups, k)
       case Yielding(k, info, i) =>
         && !isSender && k < |groups| && info == InfoFor(groups, k) && Bytes(groups[k]) <= Pick(even, odd, k)
         && i <= |info.metas| == |Received(groups[k])|
         && yielded == ReceivedUpTo(groups, k) + Received(groups[k])[..i]
       case Acking(k, info) =>
         !isSender && k < |groups| && info == InfoFor(groups, k) && yielded == ReceivedUpTo(groups, k + 1)
       case ReceiverDone => !isSender && yielded == ReceivedUpTo(groups, |groups|)
  }

  predicate RankOk(groups: seq<seq<Weight>>, capacity: nat, isSender: bool, isEnd: bool, me: Rank) {
    RankAt(groups, capacity, isSender, isEnd, me.half0, me.half1, me.pc, me.yielded)
  }

  /** The slot of parity `h` is set exactly while an acknowledgement of that parity is outstanding. */
  predicate Outstanding(used: nat, acked: nat, h: nat) {
    (used < acked && used % 2 == h % 2) || (used + 1 < acked && (used + 1) % 2 == h % 2)
  }

  predicate Announced(groups: seq<seq<Weight>>, outbox: seq<Info>, got: nat, sent: nat) {
    got + |outbox| == sent && forall i :: 0 <= i < |outbox| ==> outbox[i] == InfoFor(groups, got + i)
  }

  /** Every bucket announced but not acknowledged is still whole in the half it was announced in. */
  predicate Intact(groups: seq<seq<Weight>>, a: Rank, acked: nat, sent: nat) {
    forall x :: acked <= x < sent ==> Bytes(Group(groups, x)) <= a.Half(x)
  }

  /** A rank's buffers and slots against the counters of its own and its successor's progress. */
  predicate LinkAt(groups: seq<seq<Weight>>, a: Rank, sent: nat, used: nat, done: bool, got: nat, acked: nat) {
    && Announced(groups, a.outbox, got, sent)
    && used <= acked && sent <= used + 2
    && (if done then acked == |groups| && !a.Slot(acked + 1) && (acked >= 2 ==> a.Slot(acked))
        else a.slot0 == Outstanding(used, acked, 0) && a.slot1 == Outstanding(used, acked, 1))
    && Intact(groups, a, acked, sent)
  }

  /** A rank and its successor: messages in flight, acknowledgements in slots, data still in place. */
  predicate LinkOk(groups: seq<seq<Weight>>, a: Rank, b: Rank) {
    LinkAt(groups, a, Sent(a.pc, |groups|), Used(a.pc, |groups|), a.pc == SenderDone,
           Got(b.pc, |groups|), Acked(b.pc, |groups|))
  }

  predicate Inv(s: Chain, capacity: nat) {
    && GoodGroups(s.groups, capacity)
    && |s.ranks| >= 2
    && AllRanksOk(s.groups, capacity, s.ranks)
    && AllLinked(s.groups, s.ranks)
  }

  predicate AllRanksOk(groups: seq<seq<Weight>>, capacity: nat, ranks: seq<Rank>) {
    forall r {:trigger RankOkAt(groups, capacity, ranks, r)} :: 0 <= r < |ranks| ==> RankOkAt(groups, capacity, ranks, r)
  }

  predicate RankOkAt(groups: seq<seq<Weight>>, capacity: nat, ranks: seq<Rank>, r: nat)
    requires r < |ranks|
  {
    RankOk(groups, capacity, r == 0, r + 1 == |ranks|, ranks[r])
  }

  predicate AllLinked(groups: seq<seq<Weight>>, ranks: seq<Rank>) {
    forall r {:trigger LinkedAt(groups, ranks, r)} :: 0 <= r < |ranks| - 1 ==> LinkedAt(groups, ranks, r)
  }

  predicate LinkedAt(groups: seq<seq<Weight>>, ranks: seq<Rank>, r: nat)
    requires r + 1 < |ranks|
  {
    LinkOk(groups, ranks[r], ranks[r + 1])
  }

  /** The start of a sync: buffers with any content, slots cleared, nothing in flight. */
  predicate Initial(s: Chain, capacity: nat) {
    && GoodGroups(s.groups, capacity)
    && |s.ranks| >= 2
    && forall r :: 0 <= r < |s.ranks| ==>
         && |s.ranks[r].half0| == |s.ranks[r].half1| == capacity
         && !s.ranks[r].slot0 && !s.ranks[r].slot1 && s.ranks[r].outbox == [] && s.ranks[r].yielded == []
         && s.ranks[r].pc == if r == 0 then Filling(0, 0) else AwaitInfo(0)
  }

  lemma InitialInv(s: Chain, capacity: nat)
    requires Initial(s, capacity)
    ensures Inv(s, capacity)
  {
    assert s.groups[0][..0] == [];
  }

  // ----- each step keeps the invariant -----

  lemma SpliceKeepsPrefix(buffer: seq<Byte>, front: seq<Byte>, bytes: seq<Byte>)
    requires front <= buffer && |front| + |bytes| <= |buffer|
    ensures front + bytes <= Splice(buffer, |front|, bytes)
    ensures |Splice(buffer, |front|, bytes)| == |buffer|
  {
  }

  lemma ReceivedLength(g: seq<Weight>)
    requires AllWellFormed(g)
    ensures InRange(Metas(g), Bytes(g))
    ensures |Metas(g)| == |Received(g)|
  {
    MetasInRange(g, Bytes(g));
  }

  /** Reading an entry from the half gives what the bucket's bytes hold. */
  lemma ReceivedAt(g: seq<Weight>, buffer: seq<Byte>, i: nat)
    requires AllWellFormed(g) && Bytes(g) <= buffer && i < |Metas(g)|
    ensures i < |Received(g)| && Received(g)[i] == SliceOrEmpty(Metas(g)[i], buffer)
  {
    ReceivedLength(g);
    UnpackedAt(Metas(g), Bytes(g), i);
    SliceInPrefix(Metas(g)[i], Bytes(g), buffer);
  }

  lemma UnpackedAt(metas: seq<TensorMeta>, bytes: seq<Byte>, i: nat)
    requires InRange(metas, bytes) && i < |metas|
    ensures metas[i].offset + Size(metas[i]) <= |bytes| && Unpack(metas, bytes)[i] == Slice(metas[i], bytes)
  {
    assert metas[i] in metas;
  }

  lemma SliceInPrefix(m: TensorMeta, bytes: seq<Byte>, buffer: seq<Byte>)
    requires bytes <= buffer && m.offset + Size(m) <= |bytes|
    ensures SliceOrEmpty(m, buffer) == Slice(m, bytes)
  {
    assert buffer[..|bytes|] == bytes;
    assert buffer[m.offset..m.offset + Size(m)] == bytes[m.offset..m.offset + Size(m)];
  }

  /** The byte a copy adds makes its prefix one longer. */
  lemma CopyOneByte(bytes: seq<Byte>, source: seq<Byte>, target: seq<Byte>, at: nat)
    requires bytes <= source && at < |bytes| <= |target| && bytes[..at] <= target
    ensures bytes[..at + 1] <= Splice(target, at, ByteAt(source, at))
    ensures |Splice(target, at, ByteAt(source, at))| == |target|
  {
    assert ByteAt(source, at) == [bytes[at]];
    SpliceKeepsPrefix(target, bytes[..at], [bytes[at]]);
    assert bytes[..at] + [bytes[at]] == bytes[..at + 1];
  }

  lemma ReadingFacts(groups: seq<seq<Weight>>, capacity: nat, isEnd: bool, me: Rank)
    requires me.pc.Reading? && RankOk(groups, capacity, false, isEnd, me)
    ensures var k, info := me.pc.k, me.pc.info;
      && |me.half0| == |me.half1| == capacity && k < |groups| && info == InfoFor(groups, k)
      && me.pc.copied <= info.len == |Bytes(groups[k])| && info.half == k % 2
      && Bytes(groups[k])[..me.pc.copied] <= me.Half(k) && me.yielded == ReceivedUpTo(groups, k)
  {
  }

  /** A receiver that has copied so much, or all. */
  lemma ReadingIntro(groups: seq<seq<Weight>>, capacity: nat, isEnd: bool, me: Rank, k: nat, bytes: seq<Byte>)
    requires k < |groups| && bytes == Bytes(groups[k]) && |me.half0| == |me.half1| == capacity
    requires me.yielded == ReceivedUpTo(groups, k)
    requires (me.pc.Reading? && me.pc.copied <= |bytes| && bytes[..me.pc.copied] <= me.Half(k)) || (me.pc.Forwarding? && bytes <= me.Half(k))
    requires me.pc.k == k && me.pc.info == InfoFor(groups, k)
    ensures RankOk(groups, capacity, false, isEnd, me)
  {
  }

  /** Copying out of the predecessor's half finds the bucket whole, however long the copy takes. */
  lemma ReadKeepsRank(groups: seq<seq<Weight>>, capacity: nat, isEnd: bool, me: Rank, prev: Rank)
    requires GoodGroups(groups, capacity)
    requires me.pc.Reading? && RankOk(groups, capacity, false, isEnd, me)
    requires Bytes(groups[me.pc.k]) <= prev.Half(me.pc.k)
    ensures RankOk(groups, capacity, false, isEnd, Own(groups, me, prev, isEnd))
  {
    var k, bytes := me.pc.k, Bytes(groups[me.pc.k]);
    ReadingFacts(groups, capacity, isEnd, me);
    assert GoodGroup(groups[k], capacity);
    ReadOne(groups, isEnd, me, prev, bytes);
    ReadingIntro(groups, capacity, isEnd, Own(groups, me, prev, isEnd), k, bytes);
  }

  lemma OwnReads(groups: seq<seq<Weight>>, isEnd: bool, me: Rank, prev: Rank)
    requires me.pc.Reading?
    ensures var k, info, copied := me.pc.k, me.pc.info, me.pc.copied;
      Own(groups, me, prev, isEnd) ==
        if copied < info.len
        then me.WithHalf(k, Splice(me.Half(k), copied, ByteAt(prev.Half(info.half), copied))).(pc := Reading(k, info, copied + 1))
        else me.(pc := Forwarding(k, info))
  {
  }

  /** One byte more is copied, or the copy is complete. */
  lemma ReadOne(groups: seq<seq<Weight>>, isEnd: bool, me: Rank, prev: Rank, bytes: seq<Byte>)
    requires me.pc.Reading? && |me.half0| == |me.half1| >= |bytes|
    requires me.pc.copied <= me.pc.info.len == |bytes| && me.pc.info.half == me.pc.k % 2
    requires bytes[..me.pc.copied] <= me.Half(me.pc.k) && bytes <= prev.Half(me.pc.k)
    ensures var k, r := me.pc.k, Own(groups, me, prev, isEnd);
      && |r.half0| == |r.half1| == |me.half0| && r.yielded == me.yielded
      && ((r.pc.Reading? && r.pc.copied <= |bytes| && bytes[..r.pc.copied] <= r.Half(k)) || (r.pc.Forwarding? && bytes <= r.Half(k)))
      && r.pc.k == k && r.pc.info == me.pc.info
  {
    var k, copied := me.pc.k, me.pc.copied;
    OwnReads(groups, isEnd, me, prev);
    if copied < |bytes| {
      CopyOneByte(bytes, prev.Half(k), me.Half(k), copied);
      HalfWritten(me, k, Splice(me.Half(k), copied, ByteAt(prev.Half(k), copied)));
    } else {
      assert bytes[..|bytes|] == bytes;
    }
  }

  lemma HalfWritten(me: Rank, k: nat, half: seq<Byte>)
    requires |half| == |me.half0| == |me.half1|
    ensures var r := me.WithHalf(k, half);
      r.Half(k) == half && |r.half0| == |r.half1| == |half| && r.yielded == me.yielded
  {
  }

  /** Writing weight `j` behind the first `j` makes one more whole. */
  lemma FillOneMore(g: seq<Weight>, j: nat, half: seq<Byte>)
    requires j < |g| && Bytes(g[..j]) <= half && |Bytes(g)| <= |half|
    ensures Bytes(g[..j + 1]) <= Splice(half, Offset(g, j), g[j].bytes)
    ensures |Splice(half, Offset(g, j), g[j].bytes)| == |half|
  {
    BytesOfNext(g, j);
    SpliceKeepsPrefix(half, Bytes(g[..j]), g[j].bytes);
  }

  lemma BytesOfNext(g: seq<Weight>, j: nat)
    requires j < |g|
    ensures Bytes(g[..j + 1]) == Bytes(g[..j]) + g[j].bytes && |Bytes(g[..j])| + |g[j].bytes| <= |Bytes(g)|
  {
    BytesSplit(g, j);
    assert g[..j + 1] == g[..j] + [g[j]];
    BytesSnoc(g[..j], g[j]);
  }

  lemma FillKeepsRank(groups: seq<seq<Weight>>, capacity: nat, isEnd: bool, me: Rank, prev: Rank)
    requires GoodGroups(groups, capacity)
    requires me.pc.Filling? && RankOk(groups, capacity, true, isEnd, me)
    ensures RankOk(groups, capacity, true, isEnd, Own(groups, me, prev, isEnd))
  {
    var k, j := me.pc.k, me.pc.j;
    var g := groups[k];
    assert GoodGroup(g, capacity);
    if j < |g| {
      FillOneMore(g, j, me.Half(k));
    } else if k == 0 && |groups| > 1 {
      assert groups[1][..0] == [];
    }
  }

  lemma ForwardKeepsRank(groups: seq<seq<Weight>>, capacity: nat, isEnd: bool, me: Rank, prev: Rank)
    requires GoodGroups(groups, capacity)
    requires me.pc.Forwarding? && RankOk(groups, capacity, false, isEnd, me)
    ensures RankOk(groups, capacity, false, isEnd, Own(groups, me, prev, isEnd))
  {
    assert GoodGroup(groups[me.pc.k], capacity);
    ReceivedLength(groups[me.pc.k]);
    assert Received(groups[me.pc.k])[..0] == [];
  }

  lemma TakeOneMore<T>(front: seq<T>, all: seq<T>, i: nat)
    requires i < |all|
    ensures front + all[..i] + [all[i]] == front + all[..i + 1]
  {
  }

  lemma BucketYielded(groups: seq<seq<Weight>>, k: nat)
    requires k < |groups|
    ensures ReceivedUpTo(groups, k + 1) == ReceivedUpTo(groups, k) + Received(groups[k])
  {
  }

  lemma YieldFacts(groups: seq<seq<Weight>>, capacity: nat, isEnd: bool, me: Rank)
    requires me.pc.Yielding? && RankOk(groups, capacity, false, isEnd, me)
    ensures var k, all := me.pc.k, Received(Group(groups, me.pc.k));
      && |me.half0| == |me.half1| == capacity && k < |groups| && me.pc.info == InfoFor(groups, k)
      && me.pc.info.metas == Metas(groups[k]) && Bytes(groups[k]) <= me.Half(k)
      && me.pc.i <= |me.pc.info.metas| == |all| && me.yielded == ReceivedUpTo(groups, k) + all[..me.pc.i]
  {
  }

  lemma YieldIntro(groups: seq<seq<Weight>>, capacity: nat, isEnd: bool, me: Rank, k: nat, all: seq<Weight>)
    requires |me.half0| == |me.half1| == capacity && k < |groups| && all == Received(groups[k])
    requires (me.pc.Yielding? && Bytes(groups[k]) <= me.Half(k) && me.pc.i <= |me.pc.info.metas| == |all|
              && me.yielded == ReceivedUpTo(groups, k) + all[..me.pc.i])
          || (me.pc.Acking? && me.yielded == ReceivedUpTo(groups, k + 1))
    requires me.pc.k == k && me.pc.info == InfoFor(groups, k)
    ensures RankOk(groups, capacity, false, isEnd, me)
  {
  }

  /** One weight more is yielded, or the bucket is complete. */
  lemma YieldOne(groups: seq<seq<Weight>>, isEnd: bool, me: Rank, prev: Rank, before: seq<Weight>, all: seq<Weight>)
    requires me.pc.Yielding? && me.pc.i <= |me.pc.info.metas| == |all| && me.yielded == before + all[..me.pc.i]
    requires me.pc.i < |all| ==> all[me.pc.i] == SliceOrEmpty(me.pc.info.metas[me.pc.i], me.Half(me.pc.k))
    ensures var r := Own(groups, me, prev, isEnd);
      && r.half0 == me.half0 && r.half1 == me.half1 && r.pc.k == me.pc.k && r.pc.info == me.pc.info
      && ((r.pc.Yielding? && r.pc.i <= |all| && r.yielded == before + all[..r.pc.i]) || (r.pc.Acking? && r.yielded == before + all))
      && (r.pc.Yielding? || r.pc.Acking?)
  {
    if me.pc.i < |all| {
      TakeOneMore(before, all, me.pc.i);
    } else {
      assert all[..me.pc.i] == all;
    }
  }

  lemma YieldKeepsRank(groups: seq<seq<Weight>>, capacity: nat, isEnd: bool, me: Rank, prev: Rank)
    requires GoodGroups(groups, capacity)
    requires me.pc.Yielding? && RankOk(groups, capacity, false, isEnd, me)
    ensures RankOk(groups, capacity, false, isEnd, Own(groups, me, prev, isEnd))
  {
    var k, all := me.pc.k, Received(Group(groups, me.pc.k));
    YieldFacts(groups, capacity, isEnd, me);
    assert GoodGroup(groups[k], capacity);
    if me.pc.i < |all| { ReceivedAt(groups[k], me.Half(k), me.pc.i); }
    YieldOne(groups, isEnd, me, prev, ReceivedUpTo(groups, k), all);
    BucketYielded(groups, k);
    YieldIntro(groups, capacity, isEnd, Own(groups, me, prev, isEnd), k, all);
  }

  /** Taking an acknowledgement only moves the sender on. */
  lemma SenderWaitKeepsRank(groups: seq<seq<Weight>>, capacity: nat, isEnd: bool, me: Rank, prev: Rank)
    requires RankOk(groups, capacity, true, isEnd, me) && (me.pc.WaitAck? || me.pc.WaitLast?)
    ensures RankOk(groups, capacity, true, isEnd, Own(groups, me, prev, isEnd))
  {
    if me.pc.WaitAck? { assert groups[me.pc.k + 1][..0] == []; }
  }

  /** Taking a message or an acknowledgement only moves a receiver on. */
  lemma ReceiverWaitKeepsRank(groups: seq<seq<Weight>>, capacity: nat, isEnd: bool, me: Rank, prev: Rank)
    requires RankOk(groups, capacity, false, isEnd, me) && (me.pc.AwaitInfo? || me.pc.AwaitAck?)
    requires me.pc.AwaitInfo? && prev.outbox != [] ==> prev.outbox[0] == InfoFor(groups, me.pc.k)
    ensures RankOk(groups, capacity, false, isEnd, Own(groups, me, prev, isEnd))
  {
    assert Bytes(groups[me.pc.k])[..0] == [];
  }

  lemma AckKeepsRank(groups: seq<seq<Weight>>, capacity: nat, isEnd: bool, me: Rank, prev: Rank)
    requires RankOk(groups, capacity, false, isEnd, me) && me.pc.Acking?
    ensures RankOk(groups, capacity, false, isEnd, Own(groups, me, prev, isEnd))
  {
  }

  /** A rank's own step keeps its own part of the invariant, given its predecessor's messages and data. */
  lemma OwnKeepsRank(groups: seq<seq<Weight>>, capacity: nat, isSender: bool, isEnd: bool, me: Rank, prev: Rank)
    requires GoodGroups(groups, capacity)
    requires RankOk(groups, capacity, isSender, isEnd, me)
    requires me.pc.AwaitInfo? && prev.outbox != [] ==> prev.outbox[0] == InfoFor(groups, me.pc.k)
    requires me.pc.Reading? ==> Bytes(groups[me.pc.k]) <= prev.Half(me.pc.k)
    ensures RankOk(groups, capacity, isSender, isEnd, Own(groups, me, prev, isEnd))
  {
    match me.pc {
      case Filling(_, _) => FillKeepsRank(groups, capacity, isEnd, me, prev);
      case Reading(k, _, _) => ReadKeepsRank(groups, capacity, isEnd, me, prev);
      case Forwarding(_, _) => ForwardKeepsRank(groups, capacity, isEnd, me, prev);
      case Yielding(_, _, _) => YieldKeepsRank(groups, capacity, isEnd, me, prev);
      case SenderDone =>
      case ReceiverDone =>
      case WaitAck(_) => SenderWaitKeepsRank(groups, capacity, isEnd, me, prev);
      case WaitLast(_) => SenderWaitKeepsRank(groups, capacity, isEnd, me, prev);
      case Acking(_, _) => AckKeepsRank(groups, capacity, isEnd, me, prev);
      case _ => ReceiverWaitKeepsRank(groups, capacity, isEnd, me, prev);
    }
  }

  // ----- links -----

  /** Writing the half a rank works on leaves the announced, unacknowledged buckets alone. */
  lemma WriteKeepsLink(groups: seq<seq<Weight>>, a: Rank, k: nat, used: nat, got: nat, acked: nat, bytes: seq<Byte>, pc: Pc)
    requires LinkAt(groups, a, k, used, false, got, acked) && k <= used + 1
    ensures LinkAt(groups, a.WithHalf(k, bytes).(pc := pc), k, used, false, got, acked)
  {
  }

  /** Announcing a bucket that is whole in its half. */
  lemma AnnounceKeepsLink(groups: seq<seq<Weight>>, a: Rank, k: nat, used: nat, got: nat, acked: nat, pc: Pc)
    requires LinkAt(groups, a, k, used, false, got, acked) && k <= used + 1
    requires Bytes(Group(groups, k)) <= a.Half(k)
    ensures LinkAt(groups, a.(outbox := a.outbox + [InfoFor(groups, k)], pc := pc), k + 1, used, false, got, acked)
  {
  }

  /** Consuming an acknowledgement clears its slot and allows one more bucket. */
  lemma ConsumeKeepsLink(groups: seq<seq<Weight>>, a: Rank, sent: nat, used: nat, got: nat, acked: nat, pc: Pc)
    requires LinkAt(groups, a, sent, used, false, got, acked) && acked <= sent && a.Slot(used)
    ensures used < acked
    ensures LinkAt(groups, a.WithSlot(used, false).(pc := pc), sent, used + 1, false, got, acked)
  {
  }

  /** The last wait is for the last bucket, so it ends only after the successor has read everything. */
  lemma LastWaitEndsTheSync(groups: seq<seq<Weight>>, a: Rank, k: nat, got: nat, acked: nat, pc: Pc)
    requires k + 1 == |groups| && acked <= k + 1
    requires LinkAt(groups, a, k + 1, Less(k, 1), false, got, acked) && a.Slot(k)
    ensures LinkAt(groups, a.WithSlot(k, false).(pc := pc), k + 1, Less(k, 1), true, got, acked)
  {
  }

  /** Setting the slot of the next acknowledgement: it was clear, and now says one more is outstanding. */
  lemma AckKeepsLink(groups: seq<seq<Weight>>, a: Rank, sent: nat, used: nat, got: nat, acked: nat)
    requires LinkAt(groups, a, sent, used, false, got, acked) && acked < sent
    ensures !a.Slot(acked)
    ensures LinkAt(groups, a.WithSlot(acked, true), sent, used, false, got, acked + 1)
  {
  }

  lemma TakeKeepsLink(groups: seq<seq<Weight>>, a: Rank, sent: nat, used: nat, done: bool, got: nat, acked: nat)
    requires LinkAt(groups, a, sent, used, done, got, acked) && a.outbox != []
    ensures LinkAt(groups, a.(outbox := a.outbox[1..]), sent, used, done, got + 1, acked)
  {
    assert forall i :: 0 <= i < |a.outbox[1..]| ==> a.outbox[1..][i] == a.outbox[i + 1];
  }

  /** The program counter alone: whose it is, how far it may be, and that it carries the right message. */
  predicate PcOk(groups: seq<seq<Weight>>, isSender: bool, isEnd: bool, pc: Pc) {
    match pc
    case Filling(k, j) => isSender && k < |groups| && j <= |groups[k]|
    case WaitAck(k) => isSender && 1 <= k && k + 1 < |groups|
    case WaitLast(k) => isSender && k + 1 == |groups|
    case SenderDone => isSender
    case AwaitInfo(k) => !isSender && k < |groups|
    case AwaitAck(k, info) => !isSender && !isEnd && 2 <= k < |groups| && info == InfoFor(groups, k)
    case Reading(k, info, _) => !isSender && k < |groups| && info == InfoFor(groups, k)
    case Forwarding(k, info) => !isSender && k < |groups| && info == InfoFor(groups, k)
    case Yielding(k, info, _) => !isSender && k < |groups| && info == InfoFor(groups, k)
    case Acking(k, info) => !isSender && k < |groups| && info == InfoFor(groups, k)
    case ReceiverDone => !isSender
  }

  predicate Announces(groups: seq<seq<Weight>>, pc: Pc) {
    pc.Forwarding? || (pc.Filling? && pc.j >= |Group(groups, pc.k)|)
  }

  lemma SenderCountersMove(groups: seq<seq<Weight>>, isEnd: bool, pc: Pc, inbox: seq<Info>)
    requires PcOk(groups, true, isEnd, pc)
    ensures var n, next := |groups|, NextPc(groups, pc, inbox, isEnd);
      && Sent(next, n) == Sent(pc, n) + (if Announces(groups, pc) then 1 else 0)
      && Used(next, n) == Used(pc, n) + (if pc.WaitAck? then 1 else 0)
      && Got(next, n) == Got(pc, n) && Acked(next, n) == Acked(pc, n)
      && (next == SenderDone <==> pc == SenderDone || pc.WaitLast?)
  {
  }

  /** How the counters of a rank move in one step. */
  lemma CountersMove(groups: seq<seq<Weight>>, isSender: bool, isEnd: bool, pc: Pc, inbox: seq<Info>)
    requires PcOk(groups, isSender, isEnd, pc)
    ensures var n, next := |groups|, NextPc(groups, pc, inbox, isEnd);
      && Sent(next, n) == Sent(pc, n) + (if Announces(groups, pc) then 1 else 0)
      && (!isEnd ==> Used(next, n) == Used(pc, n) + (if pc.WaitAck? || pc.AwaitAck? then 1 else 0))
      && Got(next, n) == Got(pc, n) + (if pc.AwaitInfo? && inbox != [] then 1 else 0)
      && Acked(next, n) == Acked(pc, n) + (if pc.Acking? then 1 else 0)
      && (next == SenderDone <==> pc == SenderDone || pc.WaitLast?)
  {
    if isSender { SenderCountersMove(groups, isEnd, pc, inbox); }
  }

  lemma RankOkPc(groups: seq<seq<Weight>>, capacity: nat, isSender: bool, isEnd: bool, me: Rank)
    requires RankOk(groups, capacity, isSender, isEnd, me)
    ensures PcOk(groups, isSender, isEnd, me.pc)
  {
  }

  /** What a step of the rank needs from the outside: its acknowledgement, and well-formed messages to take. */
  predicate Ready(groups: seq<seq<Weight>>, me: Rank, inbox: seq<Info>) {
    && (me.pc.WaitAck? ==> me.Slot(me.pc.k + 1))
    && (me.pc.WaitLast? || me.pc.AwaitAck? ==> me.Slot(me.pc.k))
    && (me.pc.AwaitInfo? && inbox != [] ==> inbox[0] == InfoFor(groups, me.pc.k))
  }

  lemma WorkKeepsLink(groups: seq<seq<Weight>>, isSender: bool, a: Rank, prev: Rank, got: nat, acked: nat)
    requires PcOk(groups, isSender, false, a.pc) && (a.pc.Filling? || a.pc.Reading? || a.pc.Forwarding?)
    requires LinkAt(groups, a, a.pc.k, Less(a.pc.k, 1), false, got, acked)
    requires Announces(groups, a.pc) ==> Bytes(Group(groups, a.pc.k)) <= a.Half(a.pc.k)
    ensures LinkAt(groups, Own(groups, a, prev, false), a.pc.k + (if Announces(groups, a.pc) then 1 else 0),
              Less(a.pc.k, 1), false, got, acked)
  {
    var k, pc := a.pc.k, NextPc(groups, a.pc, prev.outbox, false);
    if Announces(groups, a.pc) {
      AnnounceKeepsLink(groups, a, k, Less(k, 1), got, acked, pc);
    } else if a.pc.Filling? {
      WriteKeepsLink(groups, a, k, Less(k, 1), got, acked,
        Splice(a.Half(k), Offset(Group(groups, k), a.pc.j), Group(groups, k)[a.pc.j].bytes), pc);
    } else if a.pc.copied < a.pc.info.len {
      WriteKeepsLink(groups, a, k, Less(k, 1), got, acked,
        Splice(a.Half(k), a.pc.copied, ByteAt(prev.Half(a.pc.info.half), a.pc.copied)), pc);
    }
  }

  /** Consuming an acknowledgement keeps the link. */
  lemma WaitKeepsLink(groups: seq<seq<Weight>>, isSender: bool, a: Rank, prev: Rank, got: nat, acked: nat)
    requires PcOk(groups, isSender, false, a.pc) && (a.pc.WaitAck? || a.pc.AwaitAck?)
    requires Ready(groups, a, prev.outbox) && acked <= got
    requires LinkAt(groups, a, Sent(a.pc, |groups|), Used(a.pc, |groups|), false, got, acked)
    ensures LinkAt(groups, Own(groups, a, prev, false), Sent(a.pc, |groups|), Used(a.pc, |groups|) + 1, false, got, acked)
  {
    var used, slot := Used(a.pc, |groups|), if a.pc.WaitAck? then a.pc.k + 1 else a.pc.k;
    assert a.Slot(used) == a.Slot(slot) && a.WithSlot(used, false) == a.WithSlot(slot, false);
    ConsumeKeepsLink(groups, a, Sent(a.pc, |groups|), used, got, acked, NextPc(groups, a.pc, prev.outbox, false));
  }

  lemma QuietKeepsLink(groups: seq<seq<Weight>>, a: Rank, sent: nat, used: nat, done: bool, got: nat, acked: nat, b: Rank)
    requires LinkAt(groups, a, sent, used, done, got, acked)
    requires b.half0 == a.half0 && b.half1 == a.half1 && b.slot0 == a.slot0 && b.slot1 == a.slot1 && b.outbox == a.outbox
    ensures LinkAt(groups, b, sent, used, done, got, acked)
  {
  }

  lemma WorkingKeepsLink(groups: seq<seq<Weight>>, isSender: bool, a: Rank, prev: Rank, b: Rank)
    requires PcOk(groups, isSender, false, a.pc) && LinkOk(groups, a, b)
    requires a.pc.Filling? || a.pc.Reading? || a.pc.Forwarding?
    requires Announces(groups, a.pc) ==> Bytes(Group(groups, a.pc.k)) <= a.Half(a.pc.k)
    ensures LinkOk(groups, Own(groups, a, prev, false), b)
  {
    var got, acked := Got(b.pc, |groups|), Acked(b.pc, |groups|);
    OwnPc(groups, a, prev, false);
    CountersMove(groups, isSender, false, a.pc, prev.outbox);
    WorkKeepsLink(groups, isSender, a, prev, got, acked);
    LinkIntro(groups, Own(groups, a, prev, false), b, a.pc.k + (if Announces(groups, a.pc) then 1 else 0), Less(a.pc.k, 1),
      false, got, acked);
  }

  lemma WaitingKeepsLink(groups: seq<seq<Weight>>, isSender: bool, a: Rank, prev: Rank, b: Rank)
    requires PcOk(groups, isSender, false, a.pc) && LinkOk(groups, a, b) && Ready(groups, a, prev.outbox)
    requires a.pc.WaitAck? || a.pc.AwaitAck? || a.pc.WaitLast?
    requires Acked(b.pc, |groups|) <= Got(b.pc, |groups|)
    ensures LinkOk(groups, Own(groups, a, prev, false), b)
  {
    var got, acked := Got(b.pc, |groups|), Acked(b.pc, |groups|);
    OwnPc(groups, a, prev, false);
    if a.pc.WaitLast? {
      LastWaitEndsTheSync(groups, a, a.pc.k, got, acked, SenderDone);
    } else {
      CountersMove(groups, isSender, false, a.pc, prev.outbox);
      WaitKeepsLink(groups, isSender, a, prev, got, acked);
      LinkIntro(groups, Own(groups, a, prev, false), b, Sent(a.pc, |groups|), Used(a.pc, |groups|) + 1, false, got, acked);
    }
  }

  /** A rank's own step keeps the link to its successor. */
  lemma OwnKeepsLink(groups: seq<seq<Weight>>, isSender: bool, a: Rank, prev: Rank, b: Rank)
    requires PcOk(groups, isSender, false, a.pc) && LinkOk(groups, a, b) && Ready(groups, a, prev.outbox)
    requires Acked(b.pc, |groups|) <= Got(b.pc, |groups|)
    requires Announces(groups, a.pc) ==> Bytes(Group(groups, a.pc.k)) <= a.Half(a.pc.k)
    ensures LinkOk(groups, Own(groups, a, prev, false), b)
  {
    if a.pc.Filling? || a.pc.Reading? || a.pc.Forwarding? {
      WorkingKeepsLink(groups, isSender, a, prev, b);
    } else if a.pc.WaitAck? || a.pc.AwaitAck? || a.pc.WaitLast? {
      WaitingKeepsLink(groups, isSender, a, prev, b);
    } else {
      CountersMove(groups, isSender, false, a.pc, prev.outbox);
      QuietKeepsLink(groups, a, Sent(a.pc, |groups|), Used(a.pc, |groups|), a.pc == SenderDone,
        Got(b.pc, |groups|), Acked(b.pc, |groups|), Own(groups, a, prev, false));
    }
  }

  /** Taking a message or acknowledging, seen from the predecessor's side. */
  lemma UpstreamLinkAt(groups: seq<seq<Weight>>, isEnd: bool, a: Rank, b: Rank, sent: nat, used: nat, done: bool)
    requires PcOk(groups, false, isEnd, b.pc)
    requires LinkAt(groups, a, sent, used, done, Got(b.pc, |groups|), Acked(b.pc, |groups|))
    ensures LinkAt(groups, Upstream(b, a), sent, used, done,
              Got(b.pc, |groups|) + (if b.pc.AwaitInfo? && a.outbox != [] then 1 else 0),
              Acked(b.pc, |groups|) + (if b.pc.Acking? then 1 else 0))
  {
    var got, acked := Got(b.pc, |groups|), Acked(b.pc, |groups|);
    if b.pc.AwaitInfo? && a.outbox != [] {
      assert Upstream(b, a) == a.(outbox := a.outbox[1..]);
      TakeKeepsLink(groups, a, sent, used, done, got, acked);
    } else if b.pc.Acking? {
      UpstreamAcks(groups, isEnd, a, b, sent, used, done);
    } else {
      assert Upstream(b, a) == a;
    }
  }

  lemma UpstreamAcks(groups: seq<seq<Weight>>, isEnd: bool, a: Rank, b: Rank, sent: nat, used: nat, done: bool)
    requires PcOk(groups, false, isEnd, b.pc) && b.pc.Acking?
    requires LinkAt(groups, a, sent, used, done, Got(b.pc, |groups|), Acked(b.pc, |groups|))
    ensures LinkAt(groups, Upstream(b, a), sent, used, done, Got(b.pc, |groups|), Acked(b.pc, |groups|) + 1)
  {
    var got, acked := Got(b.pc, |groups|), Acked(b.pc, |groups|);
    AckedUpstream(groups, isEnd, a, b);
    AckableLink(groups, a, sent, used, done, got, acked);
    AckKeepsLink(groups, a, sent, used, got, acked);
  }

  /** The slot an acknowledgement goes to is that of its bucket's parity. */
  lemma AckedUpstream(groups: seq<seq<Weight>>, isEnd: bool, a: Rank, b: Rank)
    requires PcOk(groups, false, isEnd, b.pc) && b.pc.Acking?
    ensures Acked(b.pc, |groups|) < |groups| && Got(b.pc, |groups|) == Acked(b.pc, |groups|) + 1
    ensures Upstream(b, a) == a.WithSlot(Acked(b.pc, |groups|), true)
  {
  }

  /** While an acknowledgement is still to come, the rank has not finished and the bucket has been announced. */
  lemma AckableLink(groups: seq<seq<Weight>>, a: Rank, sent: nat, used: nat, done: bool, got: nat, acked: nat)
    requires LinkAt(groups, a, sent, used, done, got, acked) && acked < |groups| && got == acked + 1
    ensures !done && acked < sent
  {
  }

  /** A receiver's step keeps the link to its predecessor. */
  lemma UpstreamKeepsLink(groups: seq<seq<Weight>>, isEnd: bool, a: Rank, b: Rank)
    requires PcOk(groups, false, isEnd, b.pc) && LinkOk(groups, a, b)
    ensures LinkOk(groups, Upstream(b, a), Own(groups, b, a, isEnd))
  {
    UpstreamLinkMoves(groups, isEnd, a, b, Sent(a.pc, |groups|), Used(a.pc, |groups|), a.pc == SenderDone);
    UpstreamPc(b, a);
    LinkIntro(groups, Upstream(b, a), Own(groups, b, a, isEnd), Sent(a.pc, |groups|), Used(a.pc, |groups|), a.pc == SenderDone,
      Got(Own(groups, b, a, isEnd).pc, |groups|), Acked(Own(groups, b, a, isEnd).pc, |groups|));
  }

  lemma UpstreamLinkMoves(groups: seq<seq<Weight>>, isEnd: bool, a: Rank, b: Rank, sent: nat, used: nat, done: bool)
    requires PcOk(groups, false, isEnd, b.pc)
    requires LinkAt(groups, a, sent, used, done, Got(b.pc, |groups|), Acked(b.pc, |groups|))
    ensures LinkAt(groups, Upstream(b, a), sent, used, done,
      Got(Own(groups, b, a, isEnd).pc, |groups|), Acked(Own(groups, b, a, isEnd).pc, |groups|))
  {
    UpstreamLinkAt(groups, isEnd, a, b, sent, used, done);
    ReceiverCountersMove(groups, isEnd, b, a);
  }

  lemma LinkIntro(groups: seq<seq<Weight>>, a: Rank, b: Rank, sent: nat, used: nat, done: bool, got: nat, acked: nat)
    requires sent == Sent(a.pc, |groups|) && used == Used(a.pc, |groups|) && done == (a.pc == SenderDone)
    requires got == Got(b.pc, |groups|) && acked == Acked(b.pc, |groups|)
    requires LinkAt(groups, a, sent, used, done, got, acked)
    ensures LinkOk(groups, a, b)
  {
  }

  lemma UpstreamPc(b: Rank, a: Rank)
    ensures Upstream(b, a).pc == a.pc
  {
  }

  lemma OwnPc(groups: seq<seq<Weight>>, me: Rank, prev: Rank, isEnd: bool)
    ensures Own(groups, me, prev, isEnd).pc == NextPc(groups, me.pc, prev.outbox, isEnd)
  {
  }

  lemma ReceiverCountersMove(groups: seq<seq<Weight>>, isEnd: bool, b: Rank, a: Rank)
    requires PcOk(groups, false, isEnd, b.pc)
    ensures var next := Own(groups, b, a, isEnd).pc;
      && Got(next, |groups|) == Got(b.pc, |groups|) + (if b.pc.AwaitInfo? && a.outbox != [] then 1 else 0)
      && Acked(next, |groups|) == Acked(b.pc, |groups|) + (if b.pc.Acking? then 1 else 0)
  {
    OwnPc(groups, b, a, isEnd);
    CountersMove(groups, false, isEnd, b.pc, a.outbox);
  }

  // ----- the whole chain -----

  lemma AckedAtMostGot(groups: seq<seq<Weight>>, isEnd: bool, pc: Pc)
    requires PcOk(groups, false, isEnd, pc)
    ensures Acked(pc, |groups|) <= Got(pc, |groups|)
  {
  }

  lemma RankFrom(s: Chain, capacity: nat, r: nat)
    requires Inv(s, capacity) && r < |s.ranks|
    ensures RankOk(s.groups, capacity, r == 0, r + 1 == |s.ranks|, s.ranks[r])
  {
    assert RankOkAt(s.groups, capacity, s.ranks, r);
  }

  lemma PcFrom(s: Chain, capacity: nat, r: nat)
    requires Inv(s, capacity) && r < |s.ranks|
    ensures PcOk(s.groups, r == 0, r + 1 == |s.ranks|, s.ranks[r].pc)
  {
    RankFrom(s, capacity, r);
    RankOkPc(s.groups, capacity, r == 0, r + 1 == |s.ranks|, s.ranks[r]);
  }

  lemma AnnouncedFrom(s: Chain, capacity: nat, r: nat)
    requires Inv(s, capacity) && r + 1 < |s.ranks|
    ensures Announces(s.groups, s.ranks[r].pc) ==> Bytes(Group(s.groups, s.ranks[r].pc.k)) <= s.ranks[r].Half(s.ranks[r].pc.k)
  {
    RankFrom(s, capacity, r);
    if Announces(s.groups, s.ranks[r].pc) { AnnouncedIsWhole(s.groups, capacity, r == 0, false, s.ranks[r]); }
  }

  lemma LinkFrom(s: Chain, capacity: nat, r: nat)
    requires Inv(s, capacity) && r + 1 < |s.ranks|
    ensures LinkOk(s.groups, s.ranks[r], s.ranks[r + 1])
  {
    assert LinkedAt(s.groups, s.ranks, r);
  }

  /** An enabled step finds what it needs: its slot, the right message, and the bucket whole in the other memory. */
  lemma EnabledIsReady(s: Chain, capacity: nat, r: nat)
    requires Inv(s, capacity) && CanStep(s, r)
    ensures Ready(s.groups, s.ranks[r], Source(s, r).outbox)
    ensures s.ranks[r].pc.Reading? ==>
              r > 0 && Bytes(Group(s.groups, s.ranks[r].pc.k)) <= s.ranks[r - 1].Half(s.ranks[r].pc.k)
  {
    PcFrom(s, capacity, r);
    if r > 0 { LinkFrom(s, capacity, r - 1); }
  }

  lemma AnnouncedIsWhole(groups: seq<seq<Weight>>, capacity: nat, isSender: bool, isEnd: bool, me: Rank)
    requires RankOk(groups, capacity, isSender, isEnd, me) && Announces(groups, me.pc)
    ensures Bytes(Group(groups, me.pc.k)) <= me.Half(me.pc.k)
  {
    if me.pc.Filling? { assert groups[me.pc.k][..me.pc.j] == groups[me.pc.k]; }
  }

  /** A successor touches only its predecessor's messages and slots. */
  lemma UpstreamLeaves(me: Rank, prev: Rank)
    ensures var u := Upstream(me, prev);
      u.half0 == prev.half0 && u.half1 == prev.half1 && u.pc == prev.pc && u.yielded == prev.yielded
  {
  }

  lemma UpstreamKeepsRank(groups: seq<seq<Weight>>, capacity: nat, isSender: bool, prev: Rank, me: Rank, next: Rank)
    requires RankOk(groups, capacity, isSender, false, prev)
    requires next.half0 == prev.half0 && next.half1 == prev.half1 && next.pc == prev.pc && next.yielded == prev.yielded
    ensures RankOk(groups, capacity, isSender, false, next)
  {
  }

  lemma StepKeepsRanks(s: Chain, capacity: nat, r: nat, i: nat)
    requires Inv(s, capacity) && CanStep(s, r) && i < |s.ranks|
    ensures RankOk(s.groups, capacity, i == 0, i + 1 == |s.ranks|, Step(s, r).ranks[i])
  {
    var prev := Source(s, r);
    RankFrom(s, capacity, i);
    StepAt(s, r, i);
    if i == r {
      EnabledIsReady(s, capacity, r);
      OwnKeepsRank(s.groups, capacity, r == 0, r + 1 == |s.ranks|, s.ranks[r], prev);
    } else if i + 1 == r {
      UpstreamLeaves(s.ranks[r], prev);
      UpstreamKeepsRank(s.groups, capacity, i == 0, prev, s.ranks[r], Upstream(s.ranks[r], prev));
    }
  }

  /** Who a step changes: the rank itself, and what it leaves at its predecessor. */
  lemma StepAt(s: Chain, r: nat, i: nat)
    requires r < |s.ranks| && i < |s.ranks|
    ensures |Step(s, r).ranks| == |s.ranks|
    ensures Step(s, r).ranks[i] ==
      if i == r then Own(s.groups, s.ranks[r], Source(s, r), r + 1 == |s.ranks|)
      else if i + 1 == r then Upstream(s.ranks[r], s.ranks[i])
      else s.ranks[i]
  {
  }

  lemma LinkSeesPc(groups: seq<seq<Weight>>, a: Rank, b: Rank, c: Rank)
    requires LinkOk(groups, a, b) && c.pc == b.pc
    ensures LinkOk(groups, a, c)
  {
  }

  lemma ToSuccessor(s: Chain, capacity: nat, r: nat, source: Rank)
    requires Inv(s, capacity) && CanStep(s, r) && r + 1 < |s.ranks| && source == Source(s, r)
    ensures LinkOk(s.groups, Own(s.groups, s.ranks[r], source, false), s.ranks[r + 1])
  {
    LinkFrom(s, capacity, r);
    PcFrom(s, capacity, r);
    AnnouncedFrom(s, capacity, r);
    AckedFrom(s, capacity, r + 1);
    EnabledIsReady(s, capacity, r);
    OwnKeepsLink(s.groups, r == 0, s.ranks[r], source, s.ranks[r + 1]);
  }

  lemma AckedFrom(s: Chain, capacity: nat, r: nat)
    requires Inv(s, capacity) && 0 < r < |s.ranks|
    ensures Acked(s.ranks[r].pc, |s.groups|) <= Got(s.ranks[r].pc, |s.groups|)
  {
    PcFrom(s, capacity, r);
    AckedAtMostGot(s.groups, r + 1 == |s.ranks|, s.ranks[r].pc);
  }

  lemma ToPredecessor(s: Chain, capacity: nat, r: nat)
    requires Inv(s, capacity) && 0 < r < |s.ranks|
    ensures LinkOk(s.groups, Upstream(s.ranks[r], s.ranks[r - 1]), Own(s.groups, s.ranks[r], s.ranks[r - 1], r + 1 == |s.ranks|))
  {
    LinkFrom(s, capacity, r - 1);
    PcFrom(s, capacity, r);
    UpstreamKeepsLink(s.groups, r + 1 == |s.ranks|, s.ranks[r - 1], s.ranks[r]);
  }

  /** Links after a change of rank `r` to `own` and of its predecessor to `up`. */
  lemma LinksAfter(groups: seq<seq<Weight>>, before: seq<Rank>, after: seq<Rank>, r: nat, up: Rank, own: Rank)
    requires r < |before| == |after| && AllLinked(groups, before) && after[r] == own
    requires forall i {:trigger after[i]} :: 0 <= i < |before| && i != r && i + 1 != r ==> after[i] == before[i]
    requires r > 0 ==> after[r - 1] == up && up.pc == before[r - 1].pc && LinkOk(groups, up, own)
    requires r + 1 < |before| ==> LinkOk(groups, own, before[r + 1])
    ensures AllLinked(groups, after)
  {
    forall i | 0 <= i < |after| - 1 ensures LinkedAt(groups, after, i) {
      if i != r && i + 1 != r {
        assert LinkedAt(groups, before, i) && after[i] == before[i];
        LinkSeesPc(groups, before[i], before[i + 1], after[i + 1]);
      }
    }
  }

  lemma StepKeepsLinks(s: Chain, capacity: nat, r: nat)
    requires Inv(s, capacity) && CanStep(s, r)
    ensures |Step(s, r).ranks| == |s.ranks| && AllLinked(s.groups, Step(s, r).ranks)
  {
    var prev := Source(s, r);
    if r + 1 < |s.ranks| { ToSuccessor(s, capacity, r, prev); }
    if r > 0 {
      ToPredecessor(s, capacity, r);
      UpstreamPc(s.ranks[r], s.ranks[r - 1]);
    }
    forall i | 0 <= i < |s.ranks| && i != r && i + 1 != r ensures Step(s, r).ranks[i] == s.ranks[i] { StepAt(s, r, i); }
    StepAt(s, r, r);
    if r > 0 { StepAt(s, r, r - 1); }
    LinksAfter(s.groups, s.ranks, Step(s, r).ranks, r, Upstream(s.ranks[r], prev), Own(s.groups, s.ranks[r], prev, r + 1 == |s.ranks|));
  }

  lemma StepKeepsInv(s: Chain, capacity: nat, r: nat)
    requires Inv(s, capacity) && CanStep(s, r)
    ensures Inv(Step(s, r), capacity)
  {
    StepKeepsLinks(s, capacity, r);
    StepKeepsAllRanks(s, capacity, r);
  }

  lemma StepKeepsAllRanks(s: Chain, capacity: nat, r: nat)
    requires Inv(s, capacity) && CanStep(s, r)
    ensures AllRanksOk(s.groups, capacity, Step(s, r).ranks)
  {
    var after := Step(s, r).ranks;
    forall i | 0 <= i < |after| ensures RankOkAt(s.groups, capacity, after, i) {
      StepAt(s, r, i);
      StepKeepsRanks(s, capacity, r, i);
    }
  }

  /** A run: some rank that can step does, again and again. */
  ghost predicate Run(states: seq<Chain>, schedule: seq<nat>, capacity: nat) {
    && |states| == |schedule| + 1
    && Initial(states[0], capacity)
    && forall i :: 0 <= i < |schedule| ==> CanStep(states[i], schedule[i]) && states[i + 1] == Step(states[i], schedule[i])
  }

  lemma {:induction false} EveryRunKeepsInv(states: seq<Chain>, schedule: seq<nat>, capacity: nat, m: nat)
    requires Run(states, schedule, capacity) && m < |states|
    ensures Inv(states[m], capacity) && states[m].groups == states[0].groups && |states[m].ranks| == |states[0].ranks|
  {
    if m == 0 {
      InitialInv(states[0], capacity);
    } else {
      EveryRunKeepsInv(states, schedule, capacity, m - 1);
      assert CanStep(states[m - 1], schedule[m - 1]);
      StepKeepsInv(states[m - 1], capacity, schedule[m - 1]);
    }
  }

  // ----- what the invariant gives -----

  /** No rank overwrites a bucket its successor still has to read, at any point of any run. */
  lemma UnreadBucketsStayWhole(states: seq<Chain>, schedule: seq<nat>, capacity: nat, m: nat, r: nat, k: nat)
    requires Run(states, schedule, capacity) && m < |states| && r + 1 < |states[m].ranks|
    requires Acked(states[m].ranks[r + 1].pc, |states[0].groups|) <= k < Sent(states[m].ranks[r].pc, |states[0].groups|)
    ensures Bytes(Group(states[0].groups, k)) <= states[m].ranks[r].Half(k)
  {
    EveryRunKeepsInv(states, schedule, capacity, m);
    LinkFrom(states[m], capacity, r);
  }

  /** A receiver that acknowledges finds its slot clear: no acknowledgement is ever lost in another. */
  lemma AcknowledgementsNeverCollide(states: seq<Chain>, schedule: seq<nat>, capacity: nat, m: nat, r: nat)
    requires Run(states, schedule, capacity) && m < |states| && r + 1 < |states[m].ranks|
    requires states[m].ranks[r + 1].pc.Acking?
    ensures !states[m].ranks[r].Slot(states[m].ranks[r + 1].pc.info.slot)
  {
    EveryRunKeepsInv(states, schedule, capacity, m);
    AckingFindsItClear(states[m], capacity, r);
  }

  lemma AckingFindsItClear(s: Chain, capacity: nat, r: nat)
    requires Inv(s, capacity) && r + 1 < |s.ranks| && s.ranks[r + 1].pc.Acking?
    ensures !s.ranks[r].Slot(s.ranks[r + 1].pc.info.slot)
  {
    LinkFrom(s, capacity, r);
    PcFrom(s, capacity, r + 1);
    SlotIsClear(s.groups, r + 2 == |s.ranks|, s.ranks[r], s.ranks[r + 1]);
  }

  lemma SlotIsClear(groups: seq<seq<Weight>>, isEnd: bool, a: Rank, b: Rank)
    requires PcOk(groups, false, isEnd, b.pc) && b.pc.Acking? && LinkOk(groups, a, b)
    ensures !a.Slot(b.pc.info.slot)
  {
    var n := |groups|;
    AckedUpstream(groups, isEnd, a, b);
    AckableLink(groups, a, Sent(a.pc, n), Used(a.pc, n), a.pc == SenderDone, Got(b.pc, n), Acked(b.pc, n));
    AckKeepsLink(groups, a, Sent(a.pc, n), Used(a.pc, n), Got(b.pc, n), Acked(b.pc, n));
  }

  /** A bucket arrives as it was exactly when its names are distinct, and never with more weights. */
  lemma BucketArrives(g: seq<Weight>)
    requires AllWellFormed(g)
    ensures Received(g) == g <==> DistinctNames(g)
    ensures |Received(g)| <= |g|
    ensures !DistinctNames(g) ==> |Received(g)| < |g|
  {
    BucketRoundTrip(g, Bytes(g));
  }

  predicate ArrivalsOf(groups: seq<seq<Weight>>, arrivals: seq<seq<Weight>>) {
    |arrivals| == |groups| && forall i {:trigger arrivals[i]} :: 0 <= i < |arrivals| ==> arrivals[i] == Received(groups[i])
  }

  lemma {:induction false} ReceivedIsJoined(groups: seq<seq<Weight>>, arrivals: seq<seq<Weight>>, k: nat)
    requires ArrivalsOf(groups, arrivals) && k <= |groups|
    ensures ReceivedUpTo(groups, k) == Joined([], arrivals, k)
  {
    if k > 0 {
      ReceivedIsJoined(groups, arrivals, k - 1);
      assert arrivals[k - 1] == Received(Group(groups, k - 1));
    }
  }

  /** Joining no fewer pieces of no greater length: equal if all are, shorter if one is. */
  lemma {:induction false} JoinedCompare<T>(a: seq<seq<T>>, b: seq<seq<T>>, k: nat)
    requires |a| == |b| && k <= |a| && forall i {:trigger a[i]} :: 0 <= i < |a| ==> a[i] == b[i] || |a[i]| < |b[i]|
    ensures |Joined([], a, k)| <= |Joined([], b, k)|
    ensures Joined([], a, k) == Joined([], b, k) <==> forall i {:trigger a[i]} :: 0 <= i < k ==> a[i] == b[i]
    ensures Joined([], a, k) != Joined([], b, k) ==> |Joined([], a, k)| < |Joined([], b, k)|
  {
    if k > 0 { JoinedCompare(a, b, k - 1); }
  }

  lemma {:induction false} JoinedIsFlatten<T>(a: seq<seq<T>>, k: nat)
    requires k <= |a|
    ensures Joined([], a, k) == Flatten(a[..k])
  {
    if k > 0 {
      JoinedIsFlatten(a, k - 1);
      assert a[..k] == a[..k - 1] + [a[k - 1]];
      FlattenSnoc(a[..k - 1], a[k - 1]);
    }
  }

  /** A sync of two or more buckets ends with the sender's other slot still set: it has to be cleared for the next. */
  lemma OneAcknowledgementIsLeftOver(states: seq<Chain>, schedule: seq<nat>, capacity: nat, m: nat)
    requires Run(states, schedule, capacity) && m < |states|
    requires states[m].ranks != [] && states[m].ranks[0].pc == SenderDone && |states[0].groups| >= 2
    ensures states[m].ranks[0].Slot(|states[0].groups|)
  {
    EveryRunKeepsInv(states, schedule, capacity, m);
    LinkFrom(states[m], capacity, 0);
  }

  lemma ArrivedIff(groups: seq<seq<Weight>>, arrivals: seq<seq<Weight>>)
    requires forall i {:trigger groups[i]} :: 0 <= i < |groups| ==> AllWellFormed(groups[i])
    requires ArrivalsOf(groups, arrivals)
    ensures Joined([], arrivals, |groups|) == Joined([], groups, |groups|) <==> DistinctInEachBucket(groups)
  {
    forall i | 0 <= i < |arrivals|
      ensures arrivals[i] == groups[i] || |arrivals[i]| < |groups[i]|
      ensures arrivals[i] == groups[i] <==> DistinctNames(groups[i])
    {
      BucketArrives(groups[i]);
    }
    JoinedCompare(arrivals, groups, |groups|);
    if forall i {:trigger arrivals[i]} :: 0 <= i < |groups| ==> arrivals[i] == groups[i] {
      forall g | g in groups ensures DistinctNames(g) {
        var i :| 0 <= i < |groups| && groups[i] == g;
        assert arrivals[i] == groups[i];
      }
    } else {
      var i :| 0 <= i < |groups| && arrivals[i] != groups[i];
      assert groups[i] in groups && !DistinctNames(groups[i]);
    }
  }

  lemma ReceivedIsSentIff(weights: seq<Weight>, capacity: nat)
    requires AllWellFormed(weights) && AllFit(weights, capacity)
    ensures var groups := Grouped(weights, capacity);
      ReceivedUpTo(groups, |groups|) == weights <==> DistinctInEachBucket(groups)
  {
    var groups := Grouped(weights, capacity);
    var arrivals := seq(|groups|, i requires 0 <= i < |groups| => Received(groups[i]));
    FillKeepsWeights(weights, capacity, []);
    assert [] + weights == weights;
    GroupsAreWellFormed(weights, capacity);
    ReceivedIsJoined(groups, arrivals, |groups|);
    JoinedIsFlatten(groups, |groups|);
    assert groups[..|groups|] == groups;
    ArrivedIff(groups, arrivals);
  }

  /**
   * Whatever the interleaving, a receiver that has finished has yielded exactly the sender's (name, tensor)
   * sequence if and only if no name repeats inside one bucket.
   */
  lemma FinishedReceiverHasEverything(
    states: seq<Chain>, schedule: seq<nat>, capacity: nat, weights: seq<Weight>, m: nat, r: nat)
    requires AllWellFormed(weights) && AllFit(weights, capacity)
    requires Run(states, schedule, capacity) && states[0].groups == Grouped(weights, capacity)
    requires m < |states| && r < |states[m].ranks| && states[m].ranks[r].pc == ReceiverDone
    ensures states[m].ranks[r].yielded == weights <==> DistinctInEachBucket(Grouped(weights, capacity))
  {
    ReceivedIsSentIff(weights, capacity);
    EveryRunKeepsInv(states, schedule, capacity, m);
    FinishedHasReceived(states[m], capacity, r);
  }

  lemma FinishedHasReceived(s: Chain, capacity: nat, r: nat)
    requires Inv(s, capacity) && r < |s.ranks| && s.ranks[r].pc == ReceiverDone
    ensures s.ranks[r].yielded == ReceivedUpTo(s.groups, |s.groups|)
  {
    RankFrom(s, capacity, r);
  }

  // ----- every sync completes -----

  predicate IsDone(pc: Pc) { pc == SenderDone || pc == ReceiverDone }

  /** A stuck receiver waits for a message that has not been sent, unless it has finished. */
  lemma {:induction false} StuckReceiversWaitForMessages(s: Chain, capacity: nat, r: nat)
    requires Inv(s, capacity) && 0 < r < |s.ranks|
    requires forall i :: 0 <= i < |s.ranks| ==> !CanStep(s, i)
    ensures s.ranks[r].pc.AwaitInfo? || s.ranks[r].pc == ReceiverDone
    ensures Acked(s.ranks[r].pc, |s.groups|) == Sent(s.ranks[r - 1].pc, |s.groups|)
    decreases |s.ranks| - r
  {
    assert !CanStep(s, r);
    PcFrom(s, capacity, r);
    if s.ranks[r].pc.AwaitAck? {
      StuckReceiversWaitForMessages(s, capacity, r + 1);
      AckIsThere(s, capacity, r);
    }
    NothingInFlight(s, capacity, r);
  }

  /** When the successor has acknowledged everything sent, the slot a rank waits for is set. */
  lemma AckIsThere(s: Chain, capacity: nat, r: nat)
    requires Inv(s, capacity) && r + 1 < |s.ranks|
    requires Acked(s.ranks[r + 1].pc, |s.groups|) == Sent(s.ranks[r].pc, |s.groups|)
    requires s.ranks[r].pc.AwaitAck? || s.ranks[r].pc.WaitAck? || s.ranks[r].pc.WaitLast?
    ensures CanStep(s, r)
  {
    LinkFrom(s, capacity, r);
    PcFrom(s, capacity, r);
    AckIsSet(s.groups, r == 0, s.ranks[r], Got(s.ranks[r + 1].pc, |s.groups|));
  }

  lemma AckIsSet(groups: seq<seq<Weight>>, isSender: bool, a: Rank, got: nat)
    requires PcOk(groups, isSender, false, a.pc) && (a.pc.AwaitAck? || a.pc.WaitAck? || a.pc.WaitLast?)
    requires LinkAt(groups, a, Sent(a.pc, |groups|), Used(a.pc, |groups|), false, got, Sent(a.pc, |groups|))
    ensures a.Slot(if a.pc.WaitAck? then a.pc.k + 1 else a.pc.k)
  {
  }

  lemma NothingInFlight(s: Chain, capacity: nat, r: nat)
    requires Inv(s, capacity) && 0 < r < |s.ranks| && !CanStep(s, r)
    requires s.ranks[r].pc.AwaitInfo? || s.ranks[r].pc == ReceiverDone
    requires PcOk(s.groups, false, r + 1 == |s.ranks|, s.ranks[r].pc)
    ensures Acked(s.ranks[r].pc, |s.groups|) == Sent(s.ranks[r - 1].pc, |s.groups|)
  {
    LinkFrom(s, capacity, r - 1);
    PcFrom(s, capacity, r - 1);
    EverythingTaken(s.groups, r - 1 == 0, r + 1 == |s.ranks|, s.ranks[r - 1], s.ranks[r]);
  }

  lemma EverythingTaken(groups: seq<seq<Weight>>, isSender: bool, isEnd: bool, a: Rank, b: Rank)
    requires PcOk(groups, isSender, false, a.pc) && PcOk(groups, false, isEnd, b.pc) && LinkOk(groups, a, b)
    requires (b.pc.AwaitInfo? && a.outbox == []) || b.pc == ReceiverDone
    ensures Acked(b.pc, |groups|) == Sent(a.pc, |groups|)
  {
  }

  /** The chain never deadlocks: when no rank can step, every rank has finished. */
  lemma NoDeadlock(s: Chain, capacity: nat, r: nat)
    requires Inv(s, capacity) && r < |s.ranks|
    requires forall i :: 0 <= i < |s.ranks| ==> !CanStep(s, i)
    ensures IsDone(s.ranks[r].pc)
  {
    assert !CanStep(s, 0);
    PcFrom(s, capacity, 0);
    StuckReceiversWaitForMessages(s, capacity, 1);
    if s.ranks[0].pc.WaitAck? || s.ranks[0].pc.WaitLast? { AckIsThere(s, capacity, 0); }
    if r > 0 { AllReceiversDone(s, capacity, r); }
  }

  lemma {:induction false} AllReceiversDone(s: Chain, capacity: nat, r: nat)
    requires Inv(s, capacity) && 0 < r < |s.ranks| && s.ranks[0].pc == SenderDone
    requires forall i :: 0 <= i < |s.ranks| ==> !CanStep(s, i)
    ensures s.ranks[r].pc == ReceiverDone
  {
    if r > 1 { AllReceiversDone(s, capacity, r - 1); }
    StuckReceiversWaitForMessages(s, capacity, r);
    PcFrom(s, capacity, r);
    CaughtUpIsDone(s.groups, r + 1 == |s.ranks|, s.ranks[r - 1].pc, s.ranks[r].pc);
  }

  lemma CaughtUpIsDone(groups: seq<seq<Weight>>, isEnd: bool, prev: Pc, pc: Pc)
    requires PcOk(groups, false, isEnd, pc) && (pc.AwaitInfo? || pc == ReceiverDone) && IsDone(prev)
    requires Acked(pc, |groups|) == Sent(prev, |groups|)
    ensures pc == ReceiverDone
  {
  }

  function Cost(g: seq<Weight>): nat { |g| + |Bytes(g)| + |Metas(g)| + 6 }

  function TailCost(groups: seq<seq<Weight>>, k: nat): nat
    decreases |groups| - k
  {
    if k >= |groups| then 0 else Cost(groups[k]) + TailCost(groups, k + 1)
  }

  /** How many steps a rank has left, waiting aside. */
  function StepsLeft(groups: seq<seq<Weight>>, pc: Pc): int {
    match pc
    case Filling(k, j) => TailCost(groups, k) + 2 - j
    case WaitAck(k) => TailCost(groups, k + 1) + 3
    case WaitLast(k) => 1
    case SenderDone => 0
    case AwaitInfo(k) => TailCost(groups, k)
    case AwaitAck(k, _) => TailCost(groups, k) - 1
    case Reading(k, _, copied) => TailCost(groups, k) - 2 - copied
    case Forwarding(k, info) => TailCost(groups, k) - 3 - info.len
    case Yielding(k, info, i) => TailCost(groups, k) - 4 - info.len - i
    case Acking(k, info) => TailCost(groups, k) - 5 - info.len - |info.metas|
    case ReceiverDone => 0
  }

  lemma TailCostStep(groups: seq<seq<Weight>>, k: nat)
    requires k < |groups|
    ensures TailCost(groups, k) >= |groups[k]| + 6 + TailCost(groups, k + 1)
  {
  }

  lemma FillingCounts(groups: seq<seq<Weight>>, k: nat, j: nat, inbox: seq<Info>, isEnd: bool)
    requires k < |groups| && j <= |groups[k]|
    ensures 0 <= StepsLeft(groups, Filling(k, j))
    ensures StepsLeft(groups, NextPc(groups, Filling(k, j), inbox, isEnd)) < StepsLeft(groups, Filling(k, j))
  {
    TailCostStep(groups, k);
  }

  lemma SenderCounts(groups: seq<seq<Weight>>, pc: Pc, inbox: seq<Info>, isEnd: bool)
    requires PcOk(groups, true, isEnd, pc)
    ensures 0 <= StepsLeft(groups, pc)
    ensures pc != SenderDone ==> StepsLeft(groups, NextPc(groups, pc, inbox, isEnd)) < StepsLeft(groups, pc)
  {
    if pc.Filling? { FillingCounts(groups, pc.k, pc.j, inbox, isEnd); }
  }

  /** How far a receiver's copy and yield counters may go. */
  predicate WithinInfo(groups: seq<seq<Weight>>, pc: Pc) {
    (pc.Reading? ==> pc.copied <= pc.info.len) && (pc.Yielding? ==> pc.i <= |pc.info.metas|)
  }

  lemma ReceiverCounts(groups: seq<seq<Weight>>, pc: Pc, inbox: seq<Info>, isEnd: bool)
    requires PcOk(groups, false, isEnd, pc) && WithinInfo(groups, pc)
    ensures 0 <= StepsLeft(groups, pc)
    ensures pc != ReceiverDone && (pc.AwaitInfo? ==> inbox != []) ==>
              StepsLeft(groups, NextPc(groups, pc, inbox, isEnd)) < StepsLeft(groups, pc)
  {
    if pc != ReceiverDone {
      assert TailCost(groups, pc.k) == Cost(groups[pc.k]) + TailCost(groups, pc.k + 1);
    }
  }

  lemma RankWithinInfo(groups: seq<seq<Weight>>, capacity: nat, isSender: bool, isEnd: bool, me: Rank)
    requires RankOk(groups, capacity, isSender, isEnd, me)
    ensures WithinInfo(groups, me.pc)
  {
  }

  /** A rank that steps has fewer steps left. */
  lemma StepCounts(groups: seq<seq<Weight>>, capacity: nat, isSender: bool, isEnd: bool, me: Rank, inbox: seq<Info>)
    requires RankOk(groups, capacity, isSender, isEnd, me)
    ensures 0 <= StepsLeft(groups, me.pc)
    ensures !IsDone(me.pc) && (me.pc.AwaitInfo? ==> inbox != []) ==>
              StepsLeft(groups, NextPc(groups, me.pc, inbox, isEnd)) < StepsLeft(groups, me.pc)
  {
    RankOkPc(groups, capacity, isSender, isEnd, me);
    RankWithinInfo(groups, capacity, isSender, isEnd, me);
    if isSender { SenderCounts(groups, me.pc, inbox, isEnd); } else { ReceiverCounts(groups, me.pc, inbox, isEnd); }
  }

  function TotalLeft(groups: seq<seq<Weight>>, ranks: seq<Rank>): int {
    if ranks == [] then 0 else TotalLeft(groups, ranks[..|ranks| - 1]) + StepsLeft(groups, ranks[|ranks| - 1].pc)
  }

  lemma {:induction false} TotalAfterChange(groups: seq<seq<Weight>>, before: seq<Rank>, after: seq<Rank>, r: nat)
    requires r < |before| == |after|
    requires forall i :: 0 <= i < |before| && i != r ==> after[i].pc == before[i].pc
    ensures TotalLeft(groups, after) - StepsLeft(groups, after[r].pc)
         == TotalLeft(groups, before) - StepsLeft(groups, before[r].pc)
    decreases |before|
  {
    var n := |before| - 1;
    if r < n {
      TotalAfterChange(groups, before[..n], after[..n], r);
    } else {
      SameTotal(groups, before[..n], after[..n]);
    }
  }

  lemma {:induction false} SameTotal(groups: seq<seq<Weight>>, before: seq<Rank>, after: seq<Rank>)
    requires |before| == |after| && forall i :: 0 <= i < |before| ==> after[i].pc == before[i].pc
    ensures TotalLeft(groups, after) == TotalLeft(groups, before)
    decreases |before|
  {
    if before != [] { SameTotal(groups, before[..|before| - 1], after[..|before| - 1]); }
  }

  lemma {:induction false} TotalIsNat(groups: seq<seq<Weight>>, ranks: seq<Rank>)
    requires forall i :: 0 <= i < |ranks| ==> 0 <= StepsLeft(groups, ranks[i].pc)
    ensures 0 <= TotalLeft(groups, ranks)
    decreases |ranks|
  {
    if ranks != [] { TotalIsNat(groups, ranks[..|ranks| - 1]); }
  }

  lemma StepLowersTotal(s: Chain, capacity: nat, r: nat)
    requires Inv(s, capacity) && CanStep(s, r)
    ensures TotalLeft(s.groups, Step(s, r).ranks) < TotalLeft(s.groups, s.ranks)
  {
    StepMovesOnePc(s, r);
    StepLowersOwn(s, capacity, r);
    OneLess(s.groups, s.ranks, Step(s, r).ranks, r);
  }

  lemma StepLowersOwn(s: Chain, capacity: nat, r: nat)
    requires Inv(s, capacity) && CanStep(s, r)
    ensures |Step(s, r).ranks| == |s.ranks|
    ensures StepsLeft(s.groups, Step(s, r).ranks[r].pc) < StepsLeft(s.groups, s.ranks[r].pc)
  {
    var prev := Source(s, r);
    RankFrom(s, capacity, r);
    StepCounts(s.groups, capacity, r == 0, r + 1 == |s.ranks|, s.ranks[r], prev.outbox);
    StepMovesOnePc(s, r);
  }

  lemma OneLess(groups: seq<seq<Weight>>, before: seq<Rank>, after: seq<Rank>, r: nat)
    requires r < |before| == |after| && StepsLeft(groups, after[r].pc) < StepsLeft(groups, before[r].pc)
    requires forall i :: 0 <= i < |before| && i != r ==> after[i].pc == before[i].pc
    ensures TotalLeft(groups, after) < TotalLeft(groups, before)
  {
    TotalAfterChange(groups, before, after, r);
  }

  /** A step moves the program counter of one rank only. */
  lemma StepMovesOnePc(s: Chain, r: nat)
    requires r < |s.ranks|
    ensures |Step(s, r).ranks| == |s.ranks|
    ensures var prev := Source(s, r);
      Step(s, r).ranks[r].pc == NextPc(s.groups, s.ranks[r].pc, prev.outbox, r + 1 == |s.ranks|)
    ensures forall i :: 0 <= i < |s.ranks| && i != r ==> Step(s, r).ranks[i].pc == s.ranks[i].pc
  {
    var prev := Source(s, r);
    OwnPc(s.groups, s.ranks[r], prev, r + 1 == |s.ranks|);
    UpstreamPc(s.ranks[r], prev);
  }

  lemma WorkIsNat(s: Chain, capacity: nat)
    requires Inv(s, capacity)
    ensures 0 <= TotalLeft(s.groups, s.ranks)
  {
    forall i | 0 <= i < |s.ranks| ensures 0 <= StepsLeft(s.groups, s.ranks[i].pc) {
      RankFrom(s, capacity, i);
      StepCounts(s.groups, capacity, i == 0, i + 1 == |s.ranks|, s.ranks[i], []);
    }
    TotalIsNat(s.groups, s.ranks);
  }

  lemma WorkAt(states: seq<Chain>, schedule: seq<nat>, capacity: nat, m: nat)
    requires Run(states, schedule, capacity) && m < |states|
    ensures 0 <= TotalLeft(states[m].groups, states[m].ranks)
    ensures m < |schedule| ==> TotalLeft(states[m + 1].groups, states[m + 1].ranks) < TotalLeft(states[m].groups, states[m].ranks)
  {
    EveryRunKeepsInv(states, schedule, capacity, m);
    WorkIsNat(states[m], capacity);
    if m < |schedule| {
      assert CanStep(states[m], schedule[m]) && states[m + 1] == Step(states[m], schedule[m]);
      StepLowersTotal(states[m], capacity, schedule[m]);
    }
  }

  lemma {:induction false} Descends(left: seq<int>, m: nat)
    requires m < |left| && forall i {:trigger left[i]} :: 0 < i < |left| ==> left[i] < left[i - 1]
    ensures left[m] <= left[0] - m
  {
    if m > 0 { Descends(left, m - 1); }
  }

  /** No run goes on for ever: the work of the initial state bounds its length. */
  lemma RunsAreBounded(states: seq<Chain>, schedule: seq<nat>, capacity: nat, m: nat)
    requires Run(states, schedule, capacity) && m < |states|
    ensures 0 <= TotalLeft(states[m].groups, states[m].ranks) <= TotalLeft(states[0].groups, states[0].ranks) - m
  {
    var left := seq(|states|, i requires 0 <= i < |states| => TotalLeft(states[i].groups, states[i].ranks));
    forall i | 0 < i < |left| ensures left[i] < left[i - 1] { WorkAt(states, schedule, capacity, i - 1); }
    Descends(left, m);
    WorkAt(states, schedule, capacity, m);
  }
}
