/** Positions and values of a delta: diffing, encoding into flush buffers, decoding, and the masked apply. */
module DeltaEncoding {
  import opened Sequences

  datatype Option<+T> = None | Some(value: T)

  /** A tensor element as its bits; a bit pattern may be a NaN. Elements are compared by bits. */
  datatype Elem = Number(bits: nat) | NaN(bits: nat)

  type Tensor = seq<Elem>

  const INT32_LIMIT := 0x8000_0000

  /** `to(torch.int32)`: two's-complement wrap-around. */
  function ToInt32(x: int): int { (x + INT32_LIMIT) % (2 * INT32_LIMIT) - INT32_LIMIT }

  lemma ToInt32IsExactBelowLimit(x: int)
    requires -INT32_LIMIT <= x < INT32_LIMIT
    ensures ToInt32(x) == x
  {
  }

  // ----- diff -----

  /** `(new != old).nonzero()`: the changed positions from `i` on, in order. */
  function ChangedFrom(now: Tensor, was: Tensor, i: nat): seq<nat>
    requires |now| == |was| && i <= |now|
    decreases |now| - i
  {
    if i == |now| then []
    else (if now[i] != was[i] then [i] else []) + ChangedFrom(now, was, i + 1)
  }

  function Changed(now: Tensor, was: Tensor): seq<nat>
    requires |now| == |was|
  {
    ChangedFrom(now, was, 0)
  }

  lemma {:induction false} ChangedIsExact(now: Tensor, was: Tensor, i: nat, p: nat)
    requires |now| == |was| && i <= |now|
    ensures p in ChangedFrom(now, was, i) <==> i <= p < |now| && now[p] != was[p]
    decreases |now| - i
  {
    if i < |now| { ChangedIsExact(now, was, i + 1, p); }
  }

  /** Positions come in ascending order, each once. */
  lemma {:induction false} ChangedAscends(now: Tensor, was: Tensor, i: nat, a: nat, b: nat)
    requires |now| == |was| && i <= |now| && a < b < |ChangedFrom(now, was, i)|
    ensures ChangedFrom(now, was, i)[a] < ChangedFrom(now, was, i)[b]
    decreases |now| - i
  {
    var rest := ChangedFrom(now, was, i + 1);
    if now[i] == was[i] {
      ChangedAscends(now, was, i + 1, a, b);
    } else if a > 0 {
      ChangedAscends(now, was, i + 1, a - 1, b - 1);
    } else {
      assert rest[b - 1] in rest;
      ChangedIsExact(now, was, i + 1, rest[b - 1]);
    }
  }

  // ----- entries and flushes -----

  /** One manifest entry before encoding: changed positions with values, or a whole tensor. */
  datatype Entry =
    | Sparse(name: string, numel: nat, idx: seq<int>, vals: seq<Elem>)
    | Dense(name: string, numel: nat, vals: seq<Elem>)

  predicate InRange(idx: seq<int>, numel: nat) { forall j :: 0 <= j < |idx| ==> 0 <= idx[j] < numel }

  predicate EntryOk(e: Entry) {
    match e
    case Sparse(_, numel, idx, vals) => |idx| == |vals| && InRange(idx, numel)
    case Dense(_, numel, vals) => |vals| == numel
  }

  /** Byte offsets into the positions, element offsets into the values. */
  datatype DeltaParam = DeltaParam(name: string, numel: nat, posStart: nat, posEnd: nat, valStart: nat, valEnd: nat)

  /** A flush: manifest, packed int32 positions (one word per element), values in one dtype. */
  datatype Flush = Flush(dense: bool, params: seq<DeltaParam>, positions: seq<int>, values: seq<Elem>)

  function Words(e: Entry): seq<int> { if e.Sparse? then e.idx else [] }

  function AllWords(es: seq<Entry>): seq<int> {
    if es == [] then [] else AllWords(es[..|es| - 1]) + Words(es[|es| - 1])
  }

  function AllVals(es: seq<Entry>): seq<Elem> {
    if es == [] then [] else AllVals(es[..|es| - 1]) + es[|es| - 1].vals
  }

  /** The manifest entry of `e` behind the entries `before`; dense entries carry no positions. */
  function ParamFor(e: Entry, before: seq<Entry>): DeltaParam {
    DeltaParam(e.name, e.numel,
      if e.Sparse? then 4 * |AllWords(before)| else 0,
      if e.Sparse? then 4 * (|AllWords(before)| + |e.idx|) else 0,
      |AllVals(before)|, |AllVals(before)| + |e.vals|)
  }

  function Params(es: seq<Entry>): seq<DeltaParam> {
    if es == [] then [] else Params(es[..|es| - 1]) + [ParamFor(es[|es| - 1], es[..|es| - 1])]
  }

  function Assemble(dense: bool, es: seq<Entry>): Flush { Flush(dense, Params(es), AllWords(es), AllVals(es)) }

  predicate Uniform(dense: bool, es: seq<Entry>) {
    forall i :: 0 <= i < |es| ==> es[i].Dense? == dense && EntryOk(es[i])
  }

  /** The flush-building loop: pieces are collected and offsets advance entry by entry. */
  method AssembleFlush(dense: bool, entries: seq<Entry>) returns (flush: Flush)
    requires Uniform(dense, entries)
    ensures flush == Assemble(dense, entries)
  {
    var idxPieces: seq<int>, valPieces: seq<Elem>, params: seq<DeltaParam> := [], [], [];
    var posOff, valOff := 0, 0;
    for n := 0 to |entries|
      invariant idxPieces == AllWords(entries[..n]) && valPieces == AllVals(entries[..n])
      invariant params == Params(entries[..n])
      invariant posOff == 4 * |idxPieces| && valOff == |valPieces|
    {
      var e := entries[n];
      assert entries[..n + 1][..n] == entries[..n];
      var nnz := |e.vals|;
      if dense {
        params := params + [DeltaParam(e.name, e.numel, 0, 0, valOff, valOff + nnz)];
      } else {
        idxPieces := idxPieces + e.idx;
        params := params + [DeltaParam(e.name, e.numel, posOff, posOff + nnz * 4, valOff, valOff + nnz)];
        posOff := posOff + nnz * 4;
      }
      valPieces := valPieces + e.vals;
      valOff := valOff + nnz;
    }
    assert entries[..|entries|] == entries;
    flush := Flush(dense, params, idxPieces, valPieces);
  }

  /** What the receiver reads back for one manifest entry. */
  function DecodeParam(f: Flush, p: DeltaParam): Entry {
    var vals := Cut(f.values, p.valStart, p.valEnd);
    if f.dense then Dense(p.name, p.numel, vals)
    else Sparse(p.name, p.numel, Cut(f.positions, p.posStart / 4, p.posEnd / 4), vals)
  }

  function Cut<T>(s: seq<T>, lo: nat, hi: nat): seq<T> {
    if lo <= hi <= |s| then s[lo..hi] else []
  }

  function Decode(f: Flush): seq<Entry> {
    seq(|f.params|, i requires 0 <= i < |f.params| => DecodeParam(f, f.params[i]))
  }

  /** Where entry `i` stands in the position buffer. */
  lemma {:induction false} WordsSplit(es: seq<Entry>, i: nat)
    requires i < |es|
    ensures |AllWords(es[..i])| + |Words(es[i])| <= |AllWords(es)|
    ensures AllWords(es)[|AllWords(es[..i])|..|AllWords(es[..i])| + |Words(es[i])|] == Words(es[i])
    decreases |es|
  {
    var front := es[..|es| - 1];
    if i < |front| {
      WordsSplit(front, i);
      assert front[..i] == es[..i] && front[i] == es[i];
    }
  }

  lemma {:induction false} ValsSplit(es: seq<Entry>, i: nat)
    requires i < |es|
    ensures |AllVals(es[..i])| + |es[i].vals| <= |AllVals(es)|
    ensures AllVals(es)[|AllVals(es[..i])|..|AllVals(es[..i])| + |es[i].vals|] == es[i].vals
    decreases |es|
  {
    var front := es[..|es| - 1];
    if i < |front| {
      ValsSplit(front, i);
      assert front[..i] == es[..i] && front[i] == es[i];
    }
  }

  lemma {:induction false} ParamsAt(es: seq<Entry>, i: nat)
    requires i < |es|
    ensures |Params(es)| == |es| && Params(es)[i] == ParamFor(es[i], es[..i])
    decreases |es|
  {
    var front := es[..|es| - 1];
    ParamsLength(front);
    if i < |front| {
      ParamsAt(front, i);
      assert front[..i] == es[..i] && front[i] == es[i];
    }
  }

  lemma {:induction false} ParamsLength(es: seq<Entry>)
    ensures |Params(es)| == |es|
    decreases |es|
  {
    if es != [] { ParamsLength(es[..|es| - 1]); }
  }

  lemma DecodeAt(dense: bool, es: seq<Entry>, i: nat)
    requires i < |es| && EntryOk(es[i]) && es[i].Dense? == dense
    ensures |Params(es)| == |es| && DecodeParam(Assemble(dense, es), Params(es)[i]) == es[i]
  {
    WordsSplit(es, i);
    ValsSplit(es, i);
    ParamsAt(es, i);
    var p, w, v := Params(es)[i], |AllWords(es[..i])|, |AllVals(es[..i])|;
    assert Cut(AllVals(es), v, v + |es[i].vals|) == es[i].vals;
    if !dense {
      assert p.posStart / 4 == w && p.posEnd / 4 == w + |es[i].idx|;
      assert Cut(AllWords(es), w, w + |es[i].idx|) == es[i].idx;
    }
  }

  lemma {:induction false} DenseHasNoWords(es: seq<Entry>)
    requires Uniform(true, es)
    ensures AllWords(es) == []
    decreases |es|
  {
    if es != [] { DenseHasNoWords(es[..|es| - 1]); }
  }

  /**
   * The manifest tiles both buffers: entry after entry, values counted in elements and positions in bytes of four,
   * with nothing between them and nothing after the last. A dense flush has no positions.
   */
  lemma ManifestTiles(dense: bool, es: seq<Entry>, i: nat)
    requires Uniform(dense, es) && i < |es|
    ensures var f := Assemble(dense, es);
      && |f.params| == |es| && f.params[i].name == es[i].name && f.params[i].numel == es[i].numel
      && f.params[i].valStart == (if i == 0 then 0 else f.params[i - 1].valEnd)
      && f.params[i].valEnd == f.params[i].valStart + |es[i].vals|
      && (i == |es| - 1 ==> f.params[i].valEnd == |f.values|)
      && (dense ==> f.positions == [] && f.params[i].posStart == f.params[i].posEnd == 0)
      && (!dense ==>
            && f.params[i].posStart == (if i == 0 then 0 else f.params[i - 1].posEnd)
            && f.params[i].posEnd == f.params[i].posStart + 4 * |es[i].idx|
            && (i == |es| - 1 ==> f.params[i].posEnd == 4 * |f.positions|))
  {
    ParamsAt(es, i);
    if i > 0 {
      ParamsAt(es, i - 1);
      assert es[..i][..i - 1] == es[..i - 1];
    }
    if i == |es| - 1 { assert es[..i] == es[..|es| - 1]; }
    if dense { DenseHasNoWords(es); }
  }

  /** Slicing the buffers by the manifest offsets recovers the entries, in order. */
  lemma DecodeOfAssemble(dense: bool, es: seq<Entry>)
    requires Uniform(dense, es)
    ensures Decode(Assemble(dense, es)) == es
  {
    ParamsLength(es);
    forall i | 0 <= i < |es| ensures Decode(Assemble(dense, es))[i] == es[i] {
      DecodeAt(dense, es, i);
    }
  }

  // ----- masked apply -----

  /** `torch.full(nan)` then `index_copy_`. */
  function Densify(flat: Tensor, idx: seq<int>, vals: seq<Elem>): (r: Tensor)
    requires |idx| == |vals| && InRange(idx, |flat|)
    ensures |r| == |flat|
    decreases |idx|
  {
    if idx == [] then flat
    else Densify(flat[idx[0] := vals[0]], idx[1..], vals[1..])
  }

  /** The patched `copy_`: NaN positions of the source are skipped. */
  function MaskedCopy(target: Tensor, source: Tensor): Tensor
    requires |target| == |source|
  {
    seq(|target|, i requires 0 <= i < |target| => if source[i].NaN? then target[i] else source[i])
  }

  const EMPTY: Elem := NaN(0)

  function Blank(numel: nat): Tensor { seq(numel, _ => EMPTY) }

  /** One entry landing on the receiver's tensor. */
  function Land(target: Tensor, e: Entry): Tensor
    requires EntryOk(e) && |target| == e.numel
  {
    match e
    case Sparse(_, numel, idx, vals) => MaskedCopy(target, Densify(Blank(numel), idx, vals))
    case Dense(_, _, vals) => vals
  }

  /** `t` overwritten with `now` at `positions`, except where `now` is a NaN. */
  function Overlay(t: Tensor, now: Tensor, positions: set<int>): Tensor
    requires |t| == |now|
  {
    seq(|t|, p requires 0 <= p < |t| => if p in positions && !now[p].NaN? then now[p] else t[p])
  }

  function Elements(idx: seq<int>): set<int> { set p | p in idx }

  /** Positions and values that agree with a tensor. */
  predicate Drawn(idx: seq<int>, vals: seq<Elem>, now: Tensor) {
    |idx| == |vals| && forall j :: 0 <= j < |idx| ==> 0 <= idx[j] < |now| && vals[j] == now[idx[j]]
  }

  lemma {:induction false} DensifyDrawn(flat: Tensor, idx: seq<int>, vals: seq<Elem>, now: Tensor)
    requires |flat| == |now| && Drawn(idx, vals, now)
    ensures InRange(idx, |flat|)
    ensures forall p :: 0 <= p < |now| ==> Densify(flat, idx, vals)[p] == if p in idx then now[p] else flat[p]
    decreases |idx|
  {
    if idx != [] {
      DensifyDrawn(flat[idx[0] := vals[0]], idx[1..], vals[1..], now);
      assert idx == [idx[0]] + idx[1..];
    }
  }

  /** A sparse entry drawn from a tensor lays that tensor over the target at its positions. */
  lemma LandDrawn(t: Tensor, e: Entry, now: Tensor)
    requires e.Sparse? && EntryOk(e) && |t| == |now| == e.numel && Drawn(e.idx, e.vals, now)
    ensures Land(t, e) == Overlay(t, now, Elements(e.idx))
  {
    DensifyDrawn(Blank(e.numel), e.idx, e.vals, now);
  }

  lemma OverlayTwice(t: Tensor, now: Tensor, a: set<int>, b: set<int>)
    requires |t| == |now|
    ensures Overlay(Overlay(t, now, a), now, b) == Overlay(t, now, a + b)
  {
  }
}
