/** What syncs leave on the receiver, over whole runs of one dense seed and any number of sparse syncs. */
module DeltaConvergence {
  import opened Sequences
  import opened DeltaEncoding
  import opened DeltaStream
  import opened DeltaEngine
  import opened DeltaSync

  /** Both ends of the engine between syncs. */
  datatype World = World(model: Model, seeded: bool, snaps: Snapshots)

  predicate Holds(model: Model, p: Param) { p.name in model && |model[p.name]| == p.numel }

  predicate CanSync(w: World, params: seq<Param>) {
    && WellPlaced(params)
    && (w.seeded ==> AllFit(params, w.snaps))
    && forall i {:trigger Holds(w.model, params[i])} :: 0 <= i < |params| ==> Holds(w.model, params[i])
  }

  // ----- one parameter -----

  /** The slices of a delta land as one overlay. */
  lemma {:induction false} SlicesLand(model: Model, name: string, idx: seq<int>, vals: seq<Elem>, s: nat, now: Tensor)
    requires Drawn(idx, vals, now) && s <= |idx| && name in model && |model[name]| == |now|
    ensures AcceptsAll(model, Slices(name, |now|, idx, vals, s))
    ensures LoadAll(model, Slices(name, |now|, idx, vals, s))
         == model[name := Overlay(model[name], now, Elements(idx[s..]))]
    decreases |idx| - s
  {
    if s == |idx| {
      assert Overlay(model[name], now, Elements(idx[s..])) == model[name];
      assert model[name := model[name]] == model;
    } else {
      var e := SliceEnd(s, |idx|);
      var next := SliceLands(model, name, idx, vals, s, now);
      SlicesLand(next, name, idx, vals, e, now);
      FirstLoads(model, Sparse(name, |now|, idx[s..e], vals[s..e]), Slices(name, |now|, idx, vals, e), next);
      OverlaysJoin(model[name], now, idx, s, e);
    }
  }

  /** One slice lands as the overlay of its positions. */
  lemma SliceLands(model: Model, name: string, idx: seq<int>, vals: seq<Elem>, s: nat, now: Tensor) returns (next: Model)
    requires Drawn(idx, vals, now) && s < |idx| && name in model && |model[name]| == |now|
    ensures var e := SliceEnd(s, |idx|);
      var entry := Sparse(name, |now|, idx[s..e], vals[s..e]);
      && Slices(name, |now|, idx, vals, s) == [entry] + Slices(name, |now|, idx, vals, e)
      && Accepts(model, entry) && next == Load(model, entry)
      && next == model[name := Overlay(model[name], now, Elements(idx[s..e]))]
  {
    var e := SliceEnd(s, |idx|);
    var entry := Sparse(name, |now|, idx[s..e], vals[s..e]);
    LandDrawn(model[name], entry, now);
    next := Load(model, entry);
  }

  lemma FirstLoads(model: Model, entry: Entry, rest: seq<Entry>, next: Model)
    requires Accepts(model, entry) && next == Load(model, entry) && AcceptsAll(next, rest)
    requires next.Keys == model.Keys && forall k :: k in model ==> |next[k]| == |model[k]|
    ensures AcceptsAll(model, [entry] + rest) && LoadAll(model, [entry] + rest) == LoadAll(next, rest)
  {
    var all := [entry] + rest;
    assert all[0] == entry && all[1..] == rest;
    SameAcceptance(model, next, rest);
    forall i | 0 <= i < |all| ensures Accepts(model, all[i]) { if i > 0 { assert Accepts(model, rest[i - 1]); } }
  }

  lemma OverlaysJoin(t: Tensor, now: Tensor, idx: seq<int>, s: nat, e: nat)
    requires |t| == |now| && s <= e <= |idx|
    ensures Overlay(Overlay(t, now, Elements(idx[s..e])), now, Elements(idx[e..])) == Overlay(t, now, Elements(idx[s..]))
  {
    OverlayTwice(t, now, Elements(idx[s..e]), Elements(idx[e..]));
    assert idx[s..e] + idx[e..] == idx[s..];
    assert Elements(idx[s..e]) + Elements(idx[e..]) == Elements(idx[s..]);
  }

  /** Acceptance depends on names and lengths only. */
  lemma SameAcceptance(a: Model, b: Model, es: seq<Entry>)
    requires a.Keys == b.Keys && (forall k :: k in a ==> |a[k]| == |b[k]|) && AcceptsAll(b, es)
    ensures AcceptsAll(a, es)
  {
    forall i | 0 <= i < |es| ensures Accepts(a, es[i]) { assert Accepts(b, es[i]); }
  }

  function Named(p: Param, snaps: Snapshots): set<int>
    requires Fits(p, snaps)
  {
    Elements(Stitch(ItemOf(p, snaps).row).idx)
  }

  /** What a sparse sync makes of one parameter's tensor. */
  function Synced(t: Tensor, p: Param, snaps: Snapshots): Tensor
    requires Fits(p, snaps) && |t| == p.numel
  {
    Overlay(t, FullOf(p), Named(p, snaps))
  }

  lemma ItemLands(model: Model, p: Param, snaps: Snapshots)
    requires Sound(p) && Fits(p, snaps) && Holds(model, p)
    ensures AcceptsAll(model, ItemEntries(ItemOf(p, snaps)))
    ensures LoadAll(model, ItemEntries(ItemOf(p, snaps))) == model[p.name := Synced(model[p.name], p, snaps)]
  {
    ItemIsDrawn(p, snaps);
    var d := Stitch(ItemOf(p, snaps).row);
    SlicesLand(model, p.name, d.idx, d.vals, 0, FullOf(p));
    assert d.idx[0..] == d.idx;
  }

  // ----- one sync -----

  /** The first `n` parameters have been brought up to date, the others not touched. */
  ghost predicate SyncedUpTo(model: Model, params: seq<Param>, snaps: Snapshots, n: nat, r: Model)
    requires n <= |params|
  {
    && r.Keys == model.Keys && (forall k :: k in model ==> |r[k]| == |model[k]|)
    && (forall i {:trigger SyncedAt(model, params[i], snaps, r)} :: 0 <= i < n ==> SyncedAt(model, params[i], snaps, r))
    && (forall i {:trigger Untouched(model, params[i].name, r)} :: n <= i < |params| ==> Untouched(model, params[i].name, r))
    && (forall k {:trigger Untouched(model, k, r)} :: k in model && Unnamed(params, k) ==> Untouched(model, k, r))
  }

  predicate SyncedAt(model: Model, p: Param, snaps: Snapshots, r: Model) {
    Fits(p, snaps) && Holds(model, p) && Holds(r, p) && r[p.name] == Synced(model[p.name], p, snaps)
  }

  predicate Unnamed(params: seq<Param>, name: string) { forall i :: 0 <= i < |params| ==> params[i].name != name }

  predicate Untouched(model: Model, name: string, r: Model) {
    name in model && name in r && r[name] == model[name]
  }

  lemma OneMoreSynced(model: Model, params: seq<Param>, snaps: Snapshots, n: nat, r: Model)
    requires DistinctNames(params) && AllFit(params, snaps) && n < |params|
    requires forall i {:trigger Holds(model, params[i])} :: 0 <= i < |params| ==> Holds(model, params[i])
    requires SyncedUpTo(model, params, snaps, n, r)
    ensures Holds(r, params[n]) && Fits(params[n], snaps)
    ensures SyncedUpTo(model, params, snaps, n + 1, r[params[n].name := Synced(r[params[n].name], params[n], snaps)])
  {
    assert Holds(model, params[n]) && Fits(params[n], snaps);
    var r' := r[params[n].name := Synced(r[params[n].name], params[n], snaps)];
    assert Untouched(model, params[n].name, r);
    forall i | 0 <= i < n ensures SyncedAt(model, params[i], snaps, r') {
      assert SyncedAt(model, params[i], snaps, r) && params[i].name != params[n].name;
    }
    forall i | n + 1 <= i < |params| ensures Untouched(model, params[i].name, r') {
      assert Untouched(model, params[i].name, r) && params[i].name != params[n].name;
    }
    forall k | k in model && Unnamed(params, k) ensures Untouched(model, k, r') {
      assert Untouched(model, k, r) && params[n].name != k;
    }
  }

  lemma NothingSyncedYet(model: Model, params: seq<Param>, snaps: Snapshots)
    requires forall i {:trigger Holds(model, params[i])} :: 0 <= i < |params| ==> Holds(model, params[i])
    ensures SyncedUpTo(model, params, snaps, 0, model)
  {
    forall i | 0 <= i < |params| ensures Untouched(model, params[i].name, model) { assert Holds(model, params[i]); }
  }

  predicate BlockIs(p: Param, snaps: Snapshots, block: seq<Entry>) {
    Fits(p, snaps) && block == ItemEntries(ItemOf(p, snaps))
  }

  lemma NextItemLands(model: Model, params: seq<Param>, snaps: Snapshots, n: nat, es: seq<Entry>, block: seq<Entry>)
    requires DistinctNames(params) && AllFit(params, snaps) && n < |params| && Sound(params[n])
    requires forall i {:trigger Holds(model, params[i])} :: 0 <= i < |params| ==> Holds(model, params[i])
    requires AcceptsAll(model, es) && SyncedUpTo(model, params, snaps, n, LoadAll(model, es))
    requires BlockIs(params[n], snaps, block)
    ensures AcceptsAll(model, es + block) && SyncedUpTo(model, params, snaps, n + 1, LoadAll(model, es + block))
  {
    var r := LoadAll(model, es);
    OneMoreSynced(model, params, snaps, n, r);
    ItemLands(r, params[n], snaps);
    AcceptedTogether(model, es, block);
  }

  predicate Landable(model: Model, params: seq<Param>, snaps: Snapshots, blocks: seq<seq<Entry>>) {
    && DistinctNames(params) && AllFit(params, snaps) && |params| == |blocks|
    && (forall i {:trigger Sound(params[i])} :: 0 <= i < |params| ==> Sound(params[i]))
    && (forall i {:trigger Holds(model, params[i])} :: 0 <= i < |params| ==> Holds(model, params[i]))
    && (forall i {:trigger BlockIs(params[i], snaps, blocks[i])} :: 0 <= i < |params| ==> BlockIs(params[i], snaps, blocks[i]))
  }

  lemma NextBlockLands(model: Model, params: seq<Param>, snaps: Snapshots, blocks: seq<seq<Entry>>, n: nat, es: seq<Entry>)
    requires Landable(model, params, snaps, blocks) && n < |params|
    requires AcceptsAll(model, es) && SyncedUpTo(model, params, snaps, n, LoadAll(model, es))
    ensures AcceptsAll(model, es + blocks[n]) && SyncedUpTo(model, params, snaps, n + 1, LoadAll(model, es + blocks[n]))
  {
    assert Sound(params[n]) && BlockIs(params[n], snaps, blocks[n]);
    NextItemLands(model, params, snaps, n, es, blocks[n]);
  }

  lemma {:induction false} EntriesLand(model: Model, params: seq<Param>, snaps: Snapshots, blocks: seq<seq<Entry>>, n: nat)
    requires Landable(model, params, snaps, blocks) && n <= |params|
    ensures AcceptsAll(model, Joined([], blocks, n))
    ensures SyncedUpTo(model, params, snaps, n, LoadAll(model, Joined([], blocks, n)))
  {
    if n > 0 {
      EntriesLand(model, params, snaps, blocks, n - 1);
      NextBlockLands(model, params, snaps, blocks, n - 1, Joined([], blocks, n - 1));
    } else {
      NothingSyncedYet(model, params, snaps);
    }
  }

  lemma TheirBlocks(params: seq<Param>, snaps: Snapshots)
    requires AllFit(params, snaps)
    ensures forall i {:trigger BlockIs(params[i], snaps, Blocks(ItemsOf(params, snaps))[i])} :: 0 <= i < |params| ==>
      BlockIs(params[i], snaps, Blocks(ItemsOf(params, snaps))[i])
  {
    forall i | 0 <= i < |params| ensures BlockIs(params[i], snaps, Blocks(ItemsOf(params, snaps))[i]) {
      assert Fits(params[i], snaps);
    }
  }

  lemma AcceptedTogether(model: Model, a: seq<Entry>, b: seq<Entry>)
    requires AcceptsAll(model, a) && AcceptsAll(LoadAll(model, a), b)
    ensures AcceptsAll(model, a + b) && LoadAll(model, a + b) == LoadAll(LoadAll(model, a), b)
  {
    SameAcceptance(model, LoadAll(model, a), b);
    LoadAllAppend(model, a, b);
  }

  /** The dense seed replaces whole tensors. */
  ghost predicate SeededUpTo(model: Model, params: seq<Param>, n: nat, r: Model)
    requires n <= |params|
  {
    && r.Keys == model.Keys && (forall k :: k in model ==> |r[k]| == |model[k]|)
    && (forall i :: 0 <= i < n ==> params[i].name in r && r[params[i].name] == FullOf(params[i]))
    && (forall k {:trigger Untouched(model, k, r)} :: k in model && Unnamed(params, k) ==> Untouched(model, k, r))
  }

  lemma OneMoreSeeded(model: Model, params: seq<Param>, n: nat, r: Model)
    requires DistinctNames(params) && n < |params| && Holds(model, params[n]) && SeededUpTo(model, params, n, r)
    requires Accepts(r, DenseEntry(params[n]))
    ensures SeededUpTo(model, params, n + 1, Load(r, DenseEntry(params[n])))
  {
    forall k | k in model && Unnamed(params, k) ensures Untouched(model, k, Load(r, DenseEntry(params[n]))) {
      assert Untouched(model, k, r) && params[n].name != k;
    }
  }

  lemma {:induction false} SeedLands(model: Model, params: seq<Param>, n: nat)
    requires DistinctNames(params) && n <= |params| && forall i {:trigger Holds(model, params[i])} :: 0 <= i < |params| ==> Holds(model, params[i])
    ensures AcceptsAll(model, DenseEntries(params)) && AcceptsAll(model, DenseEntries(params)[..n])
    ensures SeededUpTo(model, params, n, LoadAll(model, DenseEntries(params)[..n]))
  {
    var es := DenseEntries(params);
    forall i | 0 <= i < |params| ensures Accepts(model, es[i]) { assert Holds(model, params[i]); }
    if n > 0 {
      SeedLands(model, params, n - 1);
      OneMoreEntry(model, es, n - 1);
      assert es[n - 1] == DenseEntry(params[n - 1]);
      OneMoreSeeded(model, params, n - 1, LoadAll(model, es[..n - 1]));
    }
  }

  function EntriesSent(w: World, params: seq<Param>): seq<Entry>
    requires CanSync(w, params)
  {
    if w.seeded then SparseEntries(params, w.snaps) else DenseEntries(params)
  }

  /** A parameter's tensor after the next sync. */
  function NextTensor(w: World, p: Param): Tensor
    requires Holds(w.model, p) && (w.seeded ==> Fits(p, w.snaps))
  {
    if w.seeded then Synced(w.model[p.name], p, w.snaps) else FullOf(p)
  }

  predicate Delivered(w: World, p: Param, r: Model) {
    Holds(w.model, p) && Holds(r, p) && (w.seeded ==> Fits(p, w.snaps)) && r[p.name] == NextTensor(w, p)
  }

  /** A sync is accepted, brings every parameter to its next tensor and touches nothing else. */
  lemma SyncDelivers(w: World, params: seq<Param>)
    requires CanSync(w, params)
    ensures AcceptsAll(w.model, EntriesSent(w, params))
    ensures var r := LoadAll(w.model, EntriesSent(w, params));
      && (forall i {:trigger Delivered(w, params[i], r)} :: 0 <= i < |params| ==> Delivered(w, params[i], r))
      && (forall k {:trigger Untouched(w.model, k, r)} :: k in w.model && Unnamed(params, k) ==> Untouched(w.model, k, r))
  {
    assert forall i :: 0 <= i < |params| ==> Sound(params[i]);
    if w.seeded {
      TheirBlocks(params, w.snaps);
      EntriesLand(w.model, params, w.snaps, Blocks(ItemsOf(params, w.snaps)), |params|);
      var r := LoadAll(w.model, EntriesSent(w, params));
      forall i | 0 <= i < |params| ensures Delivered(w, params[i], r) {
        assert SyncedAt(w.model, params[i], w.snaps, r);
      }
    } else {
      SeedLands(w.model, params, |params|);
      var es := DenseEntries(params);
      assert es[..|params|] == es;
      var r := LoadAll(w.model, es);
      forall i | 0 <= i < |params| ensures Delivered(w, params[i], r) {
        assert Holds(w.model, params[i]) && r[params[i].name] == FullOf(params[i]);
      }
    }
  }

  function After(w: World, params: seq<Param>): World
    requires CanSync(w, params)
  {
    SyncDelivers(w, params);
    World(LoadAll(w.model, EntriesSent(w, params)), true, SnapshotsOf(params, |params|, w.snaps))
  }

  // ----- runs -----

  predicate SameParams(a: seq<Param>, b: seq<Param>) {
    |a| == |b| && forall i {:trigger SameLayout(a[i], b[i])} :: 0 <= i < |a| ==> SameLayout(a[i], b[i])
  }

  /** The weights of successive syncs: the same parameters, placed the same way, with values of their own. */
  predicate History(h: seq<seq<Param>>) {
    && (forall k {:trigger WellPlaced(h[k])} :: 0 <= k < |h| ==> WellPlaced(h[k]))
    && forall j, k {:trigger SameParams(h[j], h[k])} :: 0 <= j < |h| && 0 <= k < |h| ==> SameParams(h[j], h[k])
  }

  /** Each rank's snapshots are its shards of `params`. */
  predicate SnapsAre(snaps: Snapshots, params: seq<Param>) {
    forall i :: 0 <= i < |params| ==> params[i].name in snaps && snaps[params[i].name] == Snapshot(params[i])
  }

  /** Between syncs `k` and `k + 1`. */
  predicate Ready(w: World, h: seq<seq<Param>>, k: nat)
    requires k <= |h|
  {
    && w.seeded == (k > 0)
    && (k > 0 ==> SnapsAre(w.snaps, h[k - 1]))
    && forall j, i {:trigger Holds(w.model, h[j][i])} :: 0 <= j < |h| && 0 <= i < |h[j]| ==> Holds(w.model, h[j][i])
  }

  lemma ReadyCanSync(w: World, h: seq<seq<Param>>, k: nat)
    requires History(h) && k < |h| && Ready(w, h, k)
    ensures CanSync(w, h[k])
  {
    if k > 0 {
      assert SameParams(h[k - 1], h[k]);
      forall i | 0 <= i < |h[k]| ensures Fits(h[k][i], w.snaps) {
        assert SameLayout(h[k - 1][i], h[k][i]);
      }
    }
  }

  lemma AfterTakesSnapshots(w: World, params: seq<Param>)
    requires CanSync(w, params)
    ensures SnapsAre(After(w, params).snaps, params)
  {
    forall i | 0 <= i < |params|
      ensures params[i].name in After(w, params).snaps && After(w, params).snaps[params[i].name] == Snapshot(params[i])
    {
      SnapshotsHold(params, |params|, w.snaps, i);
    }
  }

  lemma AfterStillHolds(w: World, params: seq<Param>, p: Param)
    requires CanSync(w, params) && Holds(w.model, p)
    ensures Holds(After(w, params).model, p)
  {
    SyncDelivers(w, params);
  }

  lemma AfterIsReady(w: World, h: seq<seq<Param>>, k: nat)
    requires History(h) && k < |h| && Ready(w, h, k) && CanSync(w, h[k])
    ensures Ready(After(w, h[k]), h, k + 1)
  {
    AfterTakesSnapshots(w, h[k]);
    forall j, i | 0 <= j < |h| && 0 <= i < |h[j]| ensures Holds(After(w, h[k]).model, h[j][i]) {
      AfterStillHolds(w, h[k], h[j][i]);
    }
  }

  lemma NextIsReady(w: World, h: seq<seq<Param>>, k: nat)
    requires History(h) && k < |h| && Ready(w, h, k)
    ensures CanSync(w, h[k]) && Ready(After(w, h[k]), h, k + 1)
  {
    ReadyCanSync(w, h, k);
    AfterIsReady(w, h, k);
  }

  /** The world after the first `k` syncs; every rank's snapshots are then its current shards. */
  function RunOf(start: World, h: seq<seq<Param>>, k: nat): (w: World)
    requires History(h) && Ready(start, h, 0) && k <= |h|
    ensures Ready(w, h, k)
  {
    if k == 0 then start
    else
      var w := RunOf(start, h, k - 1);
      NextIsReady(w, h, k - 1);
      After(w, h[k - 1])
  }

  /** A delta names exactly the positions at which the trainer moved since the last sync. */
  lemma NamedIsTheDiff(w: World, p: Param, q: Param, x: nat)
    requires Sound(p) && Sound(q) && SameLayout(p, q) && x < p.numel
    requires q.name in w.snaps && w.snaps[q.name] == Snapshot(q)
    ensures Fits(p, w.snaps)
    ensures x in Named(p, w.snaps) <==> FullOf(p)[x] != FullOf(q)[x]
  {
    GatheredIsTheFullDiff(p, q);
    assert ItemOf(p, w.snaps).row == ShardDeltas(p.shards, Snapshot(q));
  }

  /** Parameter `i` has a position `x`, at every sync. */
  predicate At(h: seq<seq<Param>>, i: nat, x: nat) {
    forall j :: 0 <= j < |h| ==> i < |h[j]| && x < h[j][i].numel
  }

  /** The trainer's values at one position, sync by sync. */
  function Trace(h: seq<seq<Param>>, i: nat, x: nat): (v: seq<Elem>)
    requires At(h, i, x)
    ensures |v| == |h|
  {
    seq(|h|, j requires 0 <= j < |h| => FullOf(h[j][i])[x])
  }

  /** The receiver's value at one position after `k` syncs. */
  function Received(start: World, h: seq<seq<Param>>, k: nat, i: nat, x: nat): Elem
    requires History(h) && Ready(start, h, 0) && 1 <= k <= |h| && At(h, i, x)
  {
    assert Holds(RunOf(start, h, k).model, h[k - 1][i]);
    RunOf(start, h, k).model[h[k - 1][i].name][x]
  }

  /** The latest of the first `k` values that is not a NaN, or else the very first. */
  function LastPlain(v: seq<Elem>, k: nat): Elem
    requires 1 <= k <= |v|
  {
    if k == 1 || !v[k - 1].NaN? then v[k - 1] else LastPlain(v, k - 1)
  }

  lemma SeedShows(w: World, params: seq<Param>, i: nat, x: nat)
    requires CanSync(w, params) && !w.seeded && i < |params| && x < params[i].numel
    ensures Holds(After(w, params).model, params[i]) && After(w, params).model[params[i].name][x] == FullOf(params[i])[x]
  {
    SyncDelivers(w, params);
    assert Delivered(w, params[i], LoadAll(w.model, EntriesSent(w, params)));
  }

  /** A sparse sync moves exactly the positions at which the trainer moved to a number. */
  lemma SyncShows(w: World, params: seq<Param>, i: nat, q: Param, x: nat)
    requires CanSync(w, params) && w.seeded && i < |params| && x < params[i].numel
    requires Sound(q) && SameLayout(params[i], q) && q.name in w.snaps && w.snaps[q.name] == Snapshot(q)
    ensures Holds(w.model, params[i]) && Holds(After(w, params).model, params[i])
    ensures var now, was := FullOf(params[i])[x], FullOf(q)[x];
      After(w, params).model[params[i].name][x]
        == Next(now, was, w.model[params[i].name][x])
  {
    SyncDelivers(w, params);
    assert Delivered(w, params[i], LoadAll(w.model, EntriesSent(w, params))) && Sound(params[i]);
    NamedIsTheDiff(w, params[i], q, x);
  }

  /** The receiver moves with the trainer, unless the trainer moved to a NaN. */
  function Next(now: Elem, was: Elem, shown: Elem): Elem { if now != was && !now.NaN? then now else shown }

  lemma RunShowsStep(start: World, h: seq<seq<Param>>, k: nat, i: nat, x: nat)
    requires History(h) && Ready(start, h, 0) && 2 <= k <= |h| && At(h, i, x)
    ensures Received(start, h, k, i, x)
         == Next(Trace(h, i, x)[k - 1], Trace(h, i, x)[k - 2], Received(start, h, k - 1, i, x))
  {
    var w, p, q := RunOf(start, h, k - 1), h[k - 1][i], h[k - 2][i];
    ReadyCanSync(w, h, k - 1);
    assert SameParams(h[k - 1], h[k - 2]) && SameLayout(p, q) && WellPlaced(h[k - 2]);
    SyncShows(w, h[k - 1], i, q, x);
  }

  lemma RunShowsSeed(start: World, h: seq<seq<Param>>, i: nat, x: nat)
    requires History(h) && Ready(start, h, 0) && |h| >= 1 && At(h, i, x)
    ensures Received(start, h, 1, i, x) == Trace(h, i, x)[0]
  {
    ReadyCanSync(start, h, 0);
    assert RunOf(start, h, 0) == start;
    SeedShows(start, h[0], i, x);
  }

  function ReceivedTrace(start: World, h: seq<seq<Param>>, i: nat, x: nat): (r: seq<Elem>)
    requires History(h) && Ready(start, h, 0) && At(h, i, x)
    ensures |r| == |h|
  {
    seq(|h|, j requires 0 <= j < |h| => Received(start, h, j + 1, i, x))
  }

  lemma ReceivedTraceAt(start: World, h: seq<seq<Param>>, i: nat, x: nat, k: nat)
    requires History(h) && Ready(start, h, 0) && At(h, i, x) && 1 <= k <= |h|
    ensures ReceivedTrace(start, h, i, x)[k - 1] == Received(start, h, k, i, x)
  {
  }

  lemma ReceivedMoves(start: World, h: seq<seq<Param>>, i: nat, x: nat, j: nat)
    requires History(h) && Ready(start, h, 0) && 1 <= j < |h| && At(h, i, x)
    ensures Moved(Trace(h, i, x), ReceivedTrace(start, h, i, x), j)
  {
    var now, shown := ShownAround(start, h, j + 1, i, x);
    ReceivedTraceIs(start, h, i, x, j, shown);
    ReceivedTraceIs(start, h, i, x, j + 1, now);
  }

  lemma ShownAround(start: World, h: seq<seq<Param>>, k: nat, i: nat, x: nat) returns (now: Elem, shown: Elem)
    requires History(h) && Ready(start, h, 0) && 2 <= k <= |h| && At(h, i, x)
    ensures now == Received(start, h, k, i, x) && shown == Received(start, h, k - 1, i, x)
    ensures now == Next(Trace(h, i, x)[k - 1], Trace(h, i, x)[k - 2], shown)
  {
    now, shown := Received(start, h, k, i, x), Received(start, h, k - 1, i, x);
    RunShowsStep(start, h, k, i, x);
  }

  lemma ReceivedTraceIs(start: World, h: seq<seq<Param>>, i: nat, x: nat, k: nat, e: Elem)
    requires History(h) && Ready(start, h, 0) && At(h, i, x) && 1 <= k <= |h| && e == Received(start, h, k, i, x)
    ensures ReceivedTrace(start, h, i, x)[k - 1] == e
  {
  }

  lemma ReceivedTraceMoves(start: World, h: seq<seq<Param>>, i: nat, x: nat)
    requires History(h) && Ready(start, h, 0) && |h| >= 1 && At(h, i, x)
    ensures ReceivedTrace(start, h, i, x)[0] == Trace(h, i, x)[0]
    ensures forall j :: 1 <= j < |h| ==> Moved(Trace(h, i, x), ReceivedTrace(start, h, i, x), j)
  {
    forall j | 1 <= j < |h| ensures Moved(Trace(h, i, x), ReceivedTrace(start, h, i, x), j) {
      ReceivedMoves(start, h, i, x, j);
    }
    RunShowsSeed(start, h, i, x);
    ReceivedTraceAt(start, h, i, x, 1);
  }

  predicate Moved(v: seq<Elem>, r: seq<Elem>, j: nat)
    requires 1 <= j < |v| == |r|
  {
    r[j] == Next(v[j], v[j - 1], r[j - 1])
  }

  lemma {:induction false} MovesShow(v: seq<Elem>, r: seq<Elem>, k: nat)
    requires 1 <= k <= |v| == |r| && r[0] == v[0] && forall j :: 1 <= j < |v| ==> Moved(v, r, j)
    ensures r[k - 1] == LastPlain(v, k)
  {
    if k > 1 {
      MovesShow(v, r, k - 1);
      assert Moved(v, r, k - 1);
    }
  }

  /** After any number of syncs the receiver shows, at every position, the trainer's latest value that is not a NaN. */
  lemma EveryRunShows(start: World, h: seq<seq<Param>>, k: nat, i: nat, x: nat)
    requires History(h) && Ready(start, h, 0) && 1 <= k <= |h| && At(h, i, x)
    ensures Received(start, h, k, i, x) == LastPlain(Trace(h, i, x), k)
  {
    var v, r := Trace(h, i, x), ReceivedTrace(start, h, i, x);
    ReceivedTraceMoves(start, h, i, x);
    MovesShow(v, r, k);
    ReceivedTraceAt(start, h, i, x, k);
  }

  /** The receiver agrees with the trainer wherever the trainer holds a number. */
  lemma EveryRunAgreesOnNumbers(start: World, h: seq<seq<Param>>, k: nat, i: nat, x: nat)
    requires History(h) && Ready(start, h, 0) && 1 <= k <= |h| && At(h, i, x) && !Trace(h, i, x)[k - 1].NaN?
    ensures Received(start, h, k, i, x) == Trace(h, i, x)[k - 1]
  {
    EveryRunShows(start, h, k, i, x);
  }

  /** Value `j` is a NaN and not the one before it. */
  predicate FreshNaN(v: seq<Elem>, j: nat)
    requires 1 <= j < |v|
  {
    v[j].NaN? && v[j] != v[j - 1]
  }

  predicate NoFreshNaN(v: seq<Elem>, n: nat)
    requires n <= |v|
  {
    forall j :: 1 <= j < n ==> !FreshNaN(v, j)
  }

  predicate Caught(v: seq<Elem>, k: nat)
    requires 1 <= k <= |v|
  {
    LastPlain(v, k) == v[k - 1]
  }

  lemma {:induction false} CaughtIffNoFreshNaN(v: seq<Elem>, n: nat)
    requires n <= |v|
    ensures (forall k :: 1 <= k <= n ==> Caught(v, k)) <==> NoFreshNaN(v, n)
  {
    if n > 0 {
      CaughtIffNoFreshNaN(v, n - 1);
      assert NoFreshNaN(v, n) <==> NoFreshNaN(v, n - 1) && (n > 1 ==> !FreshNaN(v, n - 1));
      if n > 1 && (forall k :: 1 <= k <= n - 1 ==> Caught(v, k)) {
        assert Caught(v, n - 1);
        assert Caught(v, n) <==> !FreshNaN(v, n - 1);
      }
    }
  }

  predicate Matches(start: World, h: seq<seq<Param>>, k: nat, i: nat, x: nat)
    requires History(h) && Ready(start, h, 0) && 1 <= k <= |h| && At(h, i, x)
  {
    Received(start, h, k, i, x) == Trace(h, i, x)[k - 1]
  }

  /** The receiver follows the trainer bit for bit through a run exactly when no sync brings a new NaN. */
  lemma FollowsIffNoFreshNaN(start: World, h: seq<seq<Param>>, i: nat, x: nat)
    requires History(h) && Ready(start, h, 0) && At(h, i, x)
    ensures (forall k :: 1 <= k <= |h| ==> Matches(start, h, k, i, x)) <==> NoFreshNaN(Trace(h, i, x), |h|)
  {
    var v := Trace(h, i, x);
    forall k | 1 <= k <= |h| ensures Matches(start, h, k, i, x) <==> Caught(v, k) { EveryRunShows(start, h, k, i, x); }
    CaughtIffNoFreshNaN(v, |v|);
  }

  /** An unsharded parameter of one element. */
  function Scalar(e: Elem): Param { Param("w", 1, None, [Shard(0, true, [e])]) }

  lemma ScalarIsSound(e: Elem)
    ensures Sound(Scalar(e)) && FullOf(Scalar(e)) == [e]
  {
    var p := Scalar(e);
    assert p.shards[0] == Shard(0, true, [e]) && CoveredBy(p.shards[0], 0);
    assert FullOf(p) == [e];
    assert Covered(p.shards, 0);
  }

  function Scalars(a: Elem, b: Elem): seq<seq<Param>> { [[Scalar(a)], [Scalar(b)]] }

  lemma ScalarsAreAHistory(a: Elem, b: Elem)
    ensures History(Scalars(a, b)) && At(Scalars(a, b), 0, 0)
  {
    ScalarIsSound(a);
    ScalarIsSound(b);
    assert SameLayout(Scalar(a), Scalar(b)) && SameLayout(Scalar(b), Scalar(a));
    assert SameLayout(Scalar(a), Scalar(a)) && SameLayout(Scalar(b), Scalar(b));
  }

  lemma ScalarTrace(a: Elem, b: Elem)
    requires At(Scalars(a, b), 0, 0)
    ensures Trace(Scalars(a, b), 0, 0) == [a, b]
  {
    ScalarIsSound(a);
    ScalarIsSound(b);
    assert Scalars(a, b)[0][0] == Scalar(a) && Scalars(a, b)[1][0] == Scalar(b);
  }

  /** A concrete run that does not follow: one element turns from a number into a NaN, and the receiver keeps the number. */
  lemma FreshNaNIsDropped(start: World)
    requires !start.seeded && "w" in start.model && |start.model["w"]| == 1
    ensures FullOf(Scalar(NaN(1))) == [NaN(1)] && History(Scalars(Number(0), NaN(1))) && At(Scalars(Number(0), NaN(1)), 0, 0)
    ensures Ready(start, Scalars(Number(0), NaN(1)), 0)
    ensures Received(start, Scalars(Number(0), NaN(1)), 2, 0, 0) == Number(0)
  {
    var h := Scalars(Number(0), NaN(1));
    ScalarsAreAHistory(Number(0), NaN(1));
    ScalarIsSound(Number(0));
    ScalarIsSound(NaN(1));
    EveryRunShows(start, h, 2, 0, 0);
    ScalarTrace(Number(0), NaN(1));
  }

  // ----- the engine and the receiver together -----

  /** One sync end to end: whatever is batched, sliced or bucketed, the receiver gets the next world's model. */
  method Sync(e: DeltaShardedCheckpointEngine, params: seq<Param>, model: Model, scratch: Elem) returns (r: Model)
    requires CanSync(World(model, e.shardSeeded, e.shardSnap), params)
    modifies e
    ensures World(r, e.shardSeeded, e.shardSnap) == After(old(World(model, e.shardSeeded, e.shardSnap)), params)
  {
    SyncDelivers(World(model, e.shardSeeded, e.shardSnap), params);
    var wire := e.SendWeights(params, scratch);
    r := ReceiveAndApply(wire, model, e.elementSize);
  }

  /** A whole training run. */
  method RunSyncs(e: DeltaShardedCheckpointEngine, h: seq<seq<Param>>, model: Model, scratch: Elem) returns (r: Model)
    requires History(h) && Ready(World(model, e.shardSeeded, e.shardSnap), h, 0)
    modifies e
    ensures World(r, e.shardSeeded, e.shardSnap) == RunOf(old(World(model, e.shardSeeded, e.shardSnap)), h, |h|)
  {
    r := model;
    ghost var start := World(model, e.shardSeeded, e.shardSnap);
    for k := 0 to |h|
      invariant World(r, e.shardSeeded, e.shardSnap) == RunOf(start, h, k)
    {
      ReadyCanSync(RunOf(start, h, k), h, k);
      r := Sync(e, h[k], r, scratch);
    }
  }
}
