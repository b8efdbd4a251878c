/** Grouped-query attention weights: packing q, k and v by key-value head, and merging packed shards back. */
module QkvLayout {
  import opened Sequences

  /** Attention shape: key-value heads, query heads per key-value head, rows per head. */
  datatype Shape = Shape(kvHeads: nat, queriesPerKv: nat, headDim: nat)

  datatype Qkv<T> = Qkv(q: seq<T>, k: seq<T>, v: seq<T>)

  datatype Error = HeadsNotMultiple | RowsNotMultiple | NoChunks | SplitMismatch

  datatype Result<T> = Ok(value: T) | Err(error: Error)

  predicate ValidShape(sh: Shape) { sh.kvHeads >= 1 && sh.queriesPerKv >= 1 && sh.headDim >= 1 }

  function QueryRows(sh: Shape): nat { sh.queriesPerKv * sh.headDim }

  /** Rows of one packed group. */
  function Width(sh: Shape): nat { QueryRows(sh) + 2 * sh.headDim }

  predicate Fits<T>(sh: Shape, x: Qkv<T>) {
    |x.q| == sh.kvHeads * QueryRows(sh) && |x.k| == sh.kvHeads * sh.headDim && |x.v| == sh.kvHeads * sh.headDim
  }

  // ----- rows in equal pieces -----

  lemma OneMore(i: nat, n: nat, w: nat)
    requires i < n
    ensures (i + 1) * w == i * w + w <= n * w
  {
    if i + 1 < n { OneMore(i, n - 1, w); }
    assert n * w == (n - 1) * w + w;
  }

  /** Piece `i` of width `w`. */
  function Piece<T>(s: seq<T>, w: nat, i: nat): (p: seq<T>)
    requires (i + 1) * w <= |s|
    ensures |p| == w
  {
    assert (i + 1) * w == i * w + w;
    s[i * w..(i + 1) * w]
  }

  lemma PiecesFit(i: nat, n: nat, w: nat)
    requires i < n
    ensures (i + 1) * w <= n * w
  {
    OneMore(i, n, w);
  }

  function Pieces<T>(s: seq<T>, w: nat, n: nat): (ps: seq<seq<T>>)
    requires |s| == n * w
    ensures |ps| == n
  {
    seq(n, i requires 0 <= i < n => PiecesFit(i, n, w); Piece(s, w, i))
  }

  predicate AllWide<T>(ps: seq<seq<T>>, w: nat) { forall i {:trigger ps[i]} :: 0 <= i < |ps| ==> |ps[i]| == w }

  lemma {:induction false} JoinedLength<T>(ps: seq<seq<T>>, w: nat, n: nat)
    requires AllWide(ps, w) && n <= |ps|
    ensures |Joined([], ps, n)| == n * w
  {
    if n > 0 { JoinedLength(ps, w, n - 1); }
  }

  /** Equal pieces joined and cut again are the pieces. */
  lemma {:induction false} PieceOfJoined<T>(ps: seq<seq<T>>, w: nat, n: nat, i: nat)
    requires AllWide(ps, w) && i < n <= |ps|
    ensures (i + 1) * w <= |Joined([], ps, n)| && Piece(Joined([], ps, n), w, i) == ps[i]
  {
    JoinedLength(ps, w, n);
    JoinedLength(ps, w, n - 1);
    OneMore(i, n, w);
    if i < n - 1 {
      PieceOfJoined(ps, w, n - 1, i);
    }
  }

  /** Pieces of a sequence joined are the sequence. */
  lemma {:induction false} JoinedPieces<T>(s: seq<T>, w: nat, m: nat, n: nat)
    requires |s| == m * w && n <= m
    ensures n * w <= |s| && Joined([], Pieces(s, w, m), n) == s[..n * w]
  {
    if n > 0 {
      JoinedPieces(s, w, m, n - 1);
      OneMore(n - 1, m, w);
      assert Pieces(s, w, m)[n - 1] == s[(n - 1) * w..n * w];
    } else {
      assert 0 * w == 0;
    }
  }

  // ----- packing -----

  lemma GroupFits<T>(sh: Shape, x: Qkv<T>, i: nat)
    requires Fits(sh, x) && i < sh.kvHeads
    ensures (i + 1) * QueryRows(sh) <= |x.q| && (i + 1) * sh.headDim <= |x.k| && (i + 1) * sh.headDim <= |x.v|
  {
    PiecesFit(i, sh.kvHeads, QueryRows(sh));
    PiecesFit(i, sh.kvHeads, sh.headDim);
  }

  /** One key-value head with its queries, `cat([q, k, v], dim=1)` in its row. */
  function Group<T>(sh: Shape, x: Qkv<T>, i: nat): (g: seq<T>)
    requires Fits(sh, x) && i < sh.kvHeads
    ensures |g| == Width(sh)
  {
    GroupFits(sh, x, i);
    Piece(x.q, QueryRows(sh), i) + Piece(x.k, sh.headDim, i) + Piece(x.v, sh.headDim, i)
  }

  function GroupList<T>(sh: Shape, x: Qkv<T>): (gs: seq<seq<T>>)
    requires Fits(sh, x)
    ensures |gs| == sh.kvHeads && AllWide(gs, Width(sh))
  {
    seq(sh.kvHeads, i requires 0 <= i < sh.kvHeads => Group(sh, x, i))
  }

  function Packed<T>(sh: Shape, x: Qkv<T>): seq<T>
    requires Fits(sh, x)
  {
    Joined([], GroupList(sh, x), sh.kvHeads)
  }

  // ----- tensor-parallel shards -----

  /** Shard `r` of `tp`: a contiguous run of rows. */
  function Shards<T>(packed: seq<T>, rowsPerShard: nat, tp: nat): seq<seq<T>>
    requires |packed| == tp * rowsPerShard
  {
    Pieces(packed, rowsPerShard, tp)
  }

  // ----- merging -----

  function CeilDiv(a: nat, b: nat): nat
    requires b > 0
  {
    (a + b - 1) / b
  }

  /** Pieces of `size` rows from row `at` on. */
  function ChunksFrom<T>(s: seq<T>, size: nat, at: nat): seq<seq<T>>
    requires size >= 1 && at <= |s|
    decreases |s| - at
  {
    if at == |s| then []
    else if at + size <= |s| then [s[at..at + size]] + ChunksFrom(s, size, at + size)
    else [s[at..]]
  }

  /** `torch.chunk`: pieces of `ceil(rows / n)` rows, the last one perhaps shorter. */
  function ChunksOf<T>(s: seq<T>, n: nat): seq<seq<T>>
    requires n >= 1
  {
    if CeilDiv(|s|, n) == 0 then seq(n, i => []) else ChunksFrom(s, CeilDiv(|s|, n), 0)
  }

  /** A chunk split into its three parts, appended to what has been collected. */
  function Collect<T>(acc: Qkv<T>, c: seq<T>, qs: nat, ks: nat): Result<Qkv<T>> {
    if qs + ks + ks != |c| then Err(SplitMismatch)
    else Ok(Qkv(acc.q + c[..qs], acc.k + c[qs..qs + ks], acc.v + c[qs + ks..]))
  }

  function CollectAll<T>(acc: Qkv<T>, chunks: seq<seq<T>>, n: nat, qs: nat, ks: nat): Result<Qkv<T>>
    requires n <= |chunks|
  {
    if n == 0 then Ok(acc)
    else
      var p := CollectAll(acc, chunks, n - 1, qs, ks);
      if p.Err? then p else Collect(p.value, chunks[n - 1], qs, ks)
  }

  /** The first `n` shards merged. */
  function MergeUpTo<T>(shards: seq<seq<T>>, n: nat, groups: nat, qs: nat, ks: nat): Result<Qkv<T>>
    requires n <= |shards| && groups >= 1
  {
    if n == 0 then Ok(Qkv([], [], []))
    else
      var p := MergeUpTo(shards, n - 1, groups, qs, ks);
      if p.Err? then p
      else CollectAll(p.value, ChunksOf(shards[n - 1], groups), |ChunksOf(shards[n - 1], groups)|, qs, ks)
  }

  /** The groups a shard holds, and the query and key rows of each. */
  datatype Sizes = Sizes(groups: nat, queryRows: nat, keyRows: nat)

  /** The checks and sizes of the merge, read off the first shard. */
  function SizesOf(rows: nat, shards: nat, heads: nat, kvHeads: nat): (r: Result<Sizes>)
    requires shards >= 1 && kvHeads >= 1
    ensures r.Ok? ==> r.value.groups >= 1
  {
    if heads % kvHeads != 0 then Err(HeadsNotMultiple)
    else
      var perKv := heads / kvHeads;
      if rows % (perKv + 2) != 0 then Err(RowsNotMultiple)
      else
        var kvSize, groups := rows / (perKv + 2), kvHeads / shards;
        if groups == 0 then Err(NoChunks)
        else Ok(Sizes(groups, kvSize * perKv / groups, kvSize / groups))
  }

  function Merged<T>(shards: seq<seq<T>>, heads: nat, kvHeads: nat): Result<Qkv<T>>
    requires |shards| >= 1 && kvHeads >= 1
  {
    var s := SizesOf(|shards[0]|, |shards|, heads, kvHeads);
    if s.Err? then Err(s.error)
    else MergeUpTo(shards, |shards|, s.value.groups, s.value.queryRows, s.value.keyRows)
  }

  method MergeAcrossTp<T>(shards: seq<seq<T>>, heads: nat, kvHeads: nat) returns (r: Result<Qkv<T>>)
    requires |shards| >= 1 && kvHeads >= 1
    ensures r == Merged(shards, heads, kvHeads)
  {
    var s := SizesOf(|shards[0]|, |shards|, heads, kvHeads);
    if s.Err? { return Err(s.error); }
    r := MergeShards(shards, s.value.groups, s.value.queryRows, s.value.keyRows);
  }

  method MergeShards<T>(shards: seq<seq<T>>, groups: nat, qs: nat, ks: nat) returns (r: Result<Qkv<T>>)
    requires groups >= 1
    ensures r == MergeUpTo(shards, |shards|, groups, qs, ks)
  {
    var acc: Qkv<T> := Qkv([], [], []);
    for n := 0 to |shards|
      invariant MergeUpTo(shards, n, groups, qs, ks) == Ok(acc)
    {
      var next := MergeShard(acc, ChunksOf(shards[n], groups), qs, ks);
      if next.Err? {
        MergeErrorsStay(shards, n + 1, |shards|, groups, qs, ks);
        return next;
      }
      acc := next.value;
    }
    r := Ok(acc);
  }

  method MergeShard<T>(start: Qkv<T>, chunks: seq<seq<T>>, qs: nat, ks: nat) returns (r: Result<Qkv<T>>)
    ensures r == CollectAll(start, chunks, |chunks|, qs, ks)
  {
    var acc := start;
    for n := 0 to |chunks|
      invariant CollectAll(start, chunks, n, qs, ks) == Ok(acc)
    {
      var c := chunks[n];
      if qs + ks + ks != |c| {
        CollectErrorsStay(start, chunks, n + 1, |chunks|, qs, ks);
        return Err(SplitMismatch);
      }
      acc := Qkv(acc.q + c[..qs], acc.k + c[qs..qs + ks], acc.v + c[qs + ks..]);
    }
    r := Ok(acc);
  }

  lemma {:induction false} CollectErrorsStay<T>(acc: Qkv<T>, chunks: seq<seq<T>>, k: nat, n: nat, qs: nat, ks: nat)
    requires k <= n <= |chunks| && CollectAll(acc, chunks, k, qs, ks).Err?
    ensures CollectAll(acc, chunks, n, qs, ks) == CollectAll(acc, chunks, k, qs, ks)
  {
    if k < n { CollectErrorsStay(acc, chunks, k, n - 1, qs, ks); }
  }

  lemma {:induction false} MergeErrorsStay<T>(shards: seq<seq<T>>, k: nat, n: nat, groups: nat, qs: nat, ks: nat)
    requires k <= n <= |shards| && groups >= 1 && MergeUpTo(shards, k, groups, qs, ks).Err?
    ensures MergeUpTo(shards, n, groups, qs, ks) == MergeUpTo(shards, k, groups, qs, ks)
  {
    if k < n { MergeErrorsStay(shards, k, n - 1, groups, qs, ks); }
  }

  // ----- merging undoes packing -----

  lemma MulMonotone(a: nat, c: nat, b: nat)
    ensures a < c ==> a * b + b <= c * b
  {
    if a < c { OneMore(a, c, b); }
  }

  lemma QuotientUnique(q: nat, r: nat, a: nat, t: nat, b: nat)
    requires q * b + r == a * b + t && r < b && t < b
    ensures q == a && r == t
  {
    MulMonotone(q, a, b);
    MulMonotone(a, q, b);
  }

  lemma DivByMul(x: nat, b: nat, a: nat)
    requires b >= 1 && x == a * b
    ensures x / b == a && x % b == 0
  {
    QuotientUnique(x / b, x % b, a, 0, b);
  }

  lemma CeilExact(w: nat, n: nat)
    requires n >= 1
    ensures CeilDiv(n * w, n) == w
  {
    var x := n * w + n - 1;
    QuotientUnique(x / n, x % n, w, n - 1, n);
  }

  /** Cutting equal chunks is cutting pieces. */
  lemma {:induction false} ChunksArePieces<T>(s: seq<T>, w: nat, m: nat, i: nat)
    requires w >= 1 && |s| == m * w && i <= m
    ensures i * w <= |s| && ChunksFrom(s, w, i * w) == Pieces(s, w, m)[i..]
    decreases m - i
  {
    if i < m {
      OneMore(i, m, w);
      ChunksArePieces(s, w, m, i + 1);
      assert Pieces(s, w, m)[i..] == [Pieces(s, w, m)[i]] + Pieces(s, w, m)[i + 1..];
    }
  }

  lemma SliceOfSlice<T>(s: seq<T>, a: nat, b: nat, c: nat, d: nat)
    requires a <= b <= |s| && c <= d <= b - a
    ensures s[a..b][c..d] == s[a + c..a + d]
  {
    var l, r := s[a..b][c..d], s[a + c..a + d];
    assert |l| == |r| && forall k :: 0 <= k < |l| ==> l[k] == r[k];
  }

  lemma SuccTimes(i: nat, w: nat)
    ensures (i + 1) * w == i * w + w
  {
  }

  lemma NestedIndex(w: nat, p: nat, r: nat, j: nat)
    ensures (r * p + j) * w == r * (p * w) + j * w
  {
    assert (r * p + j) * w == r * p * w + j * w;
    assert r * p * w == r * (p * w);
  }

  /** Piece `i`, by where it starts. */
  lemma PieceStarts<T>(s: seq<T>, w: nat, i: nat, start: nat)
    requires start == i * w && start + w <= |s|
    ensures (i + 1) * w <= |s| && Piece(s, w, i) == s[start..start + w]
  {
    SuccTimes(i, w);
  }

  lemma PieceOfPiece<T>(s: seq<T>, w: nat, p: nat, r: nat, j: nat)
    requires j < p && (r + 1) * (p * w) <= |s|
    ensures (j + 1) * w <= p * w && (r * p + j + 1) * w <= |s|
    ensures Piece(Piece(s, p * w, r), w, j) == Piece(s, w, r * p + j)
  {
    OneMore(j, p, w);
    SuccTimes(r, p * w);
    NestedIndex(w, p, r, j);
    PieceWithin(s, w, p * w, r, j, r * p + j, r * (p * w), j * w);
  }

  /** The same, with the products named. */
  lemma PieceWithin<T>(s: seq<T>, w: nat, pw: nat, r: nat, j: nat, i: nat, outer: nat, inner: nat)
    requires outer == r * pw && inner == j * w && i * w == outer + inner && inner + w <= pw && outer + pw <= |s|
    ensures (r + 1) * pw <= |s| && (j + 1) * w <= pw && (i + 1) * w <= |s|
    ensures Piece(Piece(s, pw, r), w, j) == Piece(s, w, i)
  {
    PieceStarts(s, pw, r, outer);
    PieceStarts(Piece(s, pw, r), w, j, inner);
    PieceStarts(s, w, i, outer + inner);
    SliceOfSlice(s, outer, outer + pw, inner, inner + w);
  }

  /** The first `i` key-value heads, unpacked. */
  function FirstHeads<T>(sh: Shape, x: Qkv<T>, i: nat): Qkv<T>
    requires Fits(sh, x) && i <= sh.kvHeads
  {
    HeadsFit(sh, x, i);
    Qkv(x.q[..i * QueryRows(sh)], x.k[..i * sh.headDim], x.v[..i * sh.headDim])
  }

  lemma HeadsFit<T>(sh: Shape, x: Qkv<T>, i: nat)
    requires Fits(sh, x) && i <= sh.kvHeads
    ensures i * QueryRows(sh) <= |x.q| && i * sh.headDim <= |x.k| && i * sh.headDim <= |x.v|
  {
    if i > 0 { GroupFits(sh, x, i - 1); }
  }

  lemma PrefixGrows<T>(s: seq<T>, w: nat, i: nat)
    requires (i + 1) * w <= |s|
    ensures i * w <= |s| && s[..(i + 1) * w] == s[..i * w] + Piece(s, w, i)
  {
    assert (i + 1) * w == i * w + w;
  }

  lemma CutThree<T>(a: seq<T>, b: seq<T>, c: seq<T>)
    ensures (a + b + c)[..|a|] == a && (a + b + c)[|a|..|a| + |b|] == b && (a + b + c)[|a| + |b|..] == c
  {
  }

  /** Splitting a packed group adds one head. */
  lemma CollectGroup<T>(sh: Shape, x: Qkv<T>, i: nat)
    requires Fits(sh, x) && i < sh.kvHeads
    ensures Collect(FirstHeads(sh, x, i), Group(sh, x, i), QueryRows(sh), sh.headDim) == Ok(FirstHeads(sh, x, i + 1))
  {
    GroupFits(sh, x, i);
    HeadsFit(sh, x, i);
    var qr, d := QueryRows(sh), sh.headDim;
    PrefixGrows(x.q, qr, i);
    PrefixGrows(x.k, d, i);
    PrefixGrows(x.v, d, i);
    CutThree(Piece(x.q, qr, i), Piece(x.k, d, i), Piece(x.v, d, i));
  }

  /** The chunks are the packed groups from `i` on. */
  predicate AreGroups<T(==)>(sh: Shape, x: Qkv<T>, chunks: seq<seq<T>>, i: nat)
    requires Fits(sh, x)
  {
    i + |chunks| <= sh.kvHeads
    && forall j {:trigger chunks[j]} :: 0 <= j < |chunks| ==> chunks[j] == Group(sh, x, i + j)
  }

  lemma {:induction false} CollectShard<T>(sh: Shape, x: Qkv<T>, chunks: seq<seq<T>>, i: nat, n: nat)
    requires Fits(sh, x) && AreGroups(sh, x, chunks, i) && n <= |chunks|
    ensures CollectAll(FirstHeads(sh, x, i), chunks, n, QueryRows(sh), sh.headDim) == Ok(FirstHeads(sh, x, i + n))
  {
    if n > 0 {
      CollectShard(sh, x, chunks, i, n - 1);
      CollectGroup(sh, x, i + n - 1);
    }
  }

  lemma PackedLength<T>(sh: Shape, x: Qkv<T>)
    requires Fits(sh, x)
    ensures |Packed(sh, x)| == sh.kvHeads * Width(sh)
  {
    JoinedLength(GroupList(sh, x), Width(sh), sh.kvHeads);
  }

  lemma ShardRows(sh: Shape, tp: nat, p: nat)
    requires sh.kvHeads == tp * p
    ensures sh.kvHeads * Width(sh) == tp * (p * Width(sh))
  {
  }

  /** Cutting a shard gives the groups it holds. */
  lemma ShardPieces<T>(sh: Shape, x: Qkv<T>, p: nat, r: nat, j: nat)
    requires Fits(sh, x) && j < p && (r + 1) * p <= sh.kvHeads && (r + 1) * (p * Width(sh)) <= |Packed(sh, x)|
    ensures r * p + j < sh.kvHeads && (j + 1) * Width(sh) <= p * Width(sh)
    ensures Piece(Piece(Packed(sh, x), p * Width(sh), r), Width(sh), j) == Group(sh, x, r * p + j)
  {
    var w := Width(sh);
    assert (r + 1) * p == r * p + p;
    PieceOfPiece(Packed(sh, x), w, p, r, j);
    PieceOfJoined(GroupList(sh, x), w, sh.kvHeads, r * p + j);
  }

  /** A shard's chunks are its own groups. */
  lemma ShardChunks<T>(sh: Shape, x: Qkv<T>, tp: nat, p: nat, r: nat)
    requires ValidShape(sh) && Fits(sh, x) && sh.kvHeads == tp * p && p >= 1 && r < tp
    requires |Packed(sh, x)| == tp * (p * Width(sh))
    ensures var chunks := ChunksOf(Shards(Packed(sh, x), p * Width(sh), tp)[r], p);
      |chunks| == p && AreGroups(sh, x, chunks, r * p)
  {
    var w, pw := Width(sh), p * Width(sh);
    PiecesFit(r, tp, pw);
    OneMore(r, tp, p);
    var shard := Piece(Packed(sh, x), pw, r);
    PieceIsWide(Packed(sh, x), pw, r);
    ChunksAreItsPieces(shard, w, p);
    PiecesAreGroups(sh, x, w, p, pw, r, r * p, shard);
  }

  lemma PieceIsWide<T>(s: seq<T>, w: nat, r: nat)
    requires (r + 1) * w <= |s|
    ensures |Piece(s, w, r)| == w
  {
  }

  lemma PiecesAreGroups<T>(sh: Shape, x: Qkv<T>, w: nat, p: nat, pw: nat, r: nat, at: nat, shard: seq<T>)
    requires Fits(sh, x) && w == Width(sh) && pw == p * w && at == r * p && at + p <= sh.kvHeads && (r + 1) * p == at + p
    requires (r + 1) * pw <= |Packed(sh, x)| && shard == Piece(Packed(sh, x), pw, r) && |shard| == pw
    ensures |Pieces(shard, w, p)| == p && AreGroups(sh, x, Pieces(shard, w, p), at)
  {
    var pieces := Pieces(shard, w, p);
    forall j | 0 <= j < p ensures pieces[j] == Group(sh, x, at + j) { ShardPieces(sh, x, p, r, j); }
  }

  lemma ChunksAreItsPieces<T>(s: seq<T>, w: nat, p: nat)
    requires w >= 1 && p >= 1 && |s| == p * w
    ensures ChunksOf(s, p) == Pieces(s, w, p)
  {
    CeilExact(w, p);
    ChunksArePieces(s, w, p, 0);
    assert 0 * w == 0;
  }

  /** Where the groups of shard `n` start. */
  function Start(p: nat, n: nat): nat { if n == 0 then 0 else Start(p, n - 1) + p }

  lemma {:induction false} StartIsProduct(p: nat, n: nat)
    ensures Start(p, n) == n * p
  {
    if n > 0 { StartIsProduct(p, n - 1); }
  }

  /** A shard's chunks are the packed groups from `from` on. */
  predicate HoldsGroups<T(==)>(sh: Shape, x: Qkv<T>, p: nat, shard: seq<T>, from: nat)
    requires Fits(sh, x) && p >= 1
  {
    from + p <= sh.kvHeads && |ChunksOf(shard, p)| == p && AreGroups(sh, x, ChunksOf(shard, p), from)
  }

  /** Merging a shard into `before` gives `after`. */
  predicate Merges<T(==)>(p: nat, qs: nat, ks: nat, shard: seq<T>, before: Qkv<T>, after: Qkv<T>)
    requires p >= 1
  {
    CollectAll(before, ChunksOf(shard, p), |ChunksOf(shard, p)|, qs, ks) == Ok(after)
  }

  predicate MergesAt<T(==)>(p: nat, qs: nat, ks: nat, shards: seq<seq<T>>, parts: seq<Qkv<T>>, r: nat)
    requires p >= 1 && r < |shards| && |parts| == |shards| + 1
  {
    Merges(p, qs, ks, shards[r], parts[r], parts[r + 1])
  }

  lemma {:induction false} MergeByParts<T>(shards: seq<seq<T>>, parts: seq<Qkv<T>>, n: nat, p: nat, qs: nat, ks: nat)
    requires p >= 1 && n <= |shards| && |parts| == |shards| + 1 && parts[0] == Qkv([], [], [])
    requires forall r {:trigger MergesAt(p, qs, ks, shards, parts, r)} :: 0 <= r < |shards| ==>
      MergesAt(p, qs, ks, shards, parts, r)
    ensures MergeUpTo(shards, n, p, qs, ks) == Ok(parts[n])
  {
    if n > 0 {
      MergeByParts(shards, parts, n - 1, p, qs, ks);
      assert MergesAt(p, qs, ks, shards, parts, n - 1);
    }
  }

  /** A shard with its own groups carries the heads collected so far to the next. */
  lemma ShardMerges<T>(sh: Shape, x: Qkv<T>, p: nat, shard: seq<T>, from: nat)
    requires Fits(sh, x) && p >= 1 && HoldsGroups(sh, x, p, shard, from)
    ensures from + p <= sh.kvHeads
    ensures Merges(p, QueryRows(sh), sh.headDim, shard, FirstHeads(sh, x, from), FirstHeads(sh, x, from + p))
  {
    CollectShard(sh, x, ChunksOf(shard, p), from, p);
  }

  lemma StartFits(sh: Shape, tp: nat, p: nat, n: nat)
    requires sh.kvHeads == tp * p && n <= tp
    ensures Start(p, n) <= sh.kvHeads && (n == tp ==> Start(p, n) == sh.kvHeads)
  {
    StartIsProduct(p, n);
    if n < tp { OneMore(n, tp, p); }
  }

  lemma ShardHolds<T>(sh: Shape, x: Qkv<T>, tp: nat, p: nat, shards: seq<seq<T>>, n: nat)
    requires ValidShape(sh) && Fits(sh, x) && sh.kvHeads == tp * p && p >= 1 && n < tp
    requires |Packed(sh, x)| == tp * (p * Width(sh)) && shards == Shards(Packed(sh, x), p * Width(sh), tp)
    ensures HoldsGroups(sh, x, p, shards[n], Start(p, n))
  {
    StartIsProduct(p, n);
    ShardChunks(sh, x, tp, p, n);
    OneMore(n, tp, p);
  }

  lemma NoHeads<T>(sh: Shape, x: Qkv<T>)
    requires Fits(sh, x)
    ensures FirstHeads(sh, x, 0) == Qkv([], [], [])
  {
    assert 0 * QueryRows(sh) == 0 && 0 * sh.headDim == 0;
  }

  /** The sizes the merge reads off the first shard are those of the packing. */
  lemma SizesRecovered(sh: Shape, tp: nat, p: nat)
    requires ValidShape(sh) && tp >= 1 && p >= 1 && sh.kvHeads == tp * p
    ensures (sh.kvHeads * sh.queriesPerKv) % sh.kvHeads == 0 && sh.kvHeads * sh.queriesPerKv / sh.kvHeads == sh.queriesPerKv
    ensures (p * Width(sh)) % (sh.queriesPerKv + 2) == 0 && p * Width(sh) / (sh.queriesPerKv + 2) == p * sh.headDim
    ensures sh.kvHeads / tp == p
    ensures p * sh.headDim * sh.queriesPerKv / p == QueryRows(sh) && p * sh.headDim / p == sh.headDim
  {
    DivByMul(sh.kvHeads * sh.queriesPerKv, sh.kvHeads, sh.queriesPerKv);
    assert Width(sh) == sh.headDim * (sh.queriesPerKv + 2);
    assert p * Width(sh) == p * sh.headDim * (sh.queriesPerKv + 2);
    DivByMul(p * Width(sh), sh.queriesPerKv + 2, p * sh.headDim);
    DivByMul(sh.kvHeads, tp, p);
    assert p * sh.headDim * sh.queriesPerKv == QueryRows(sh) * p;
    DivByMul(p * sh.headDim * sh.queriesPerKv, p, QueryRows(sh));
    DivByMul(p * sh.headDim, p, sh.headDim);
  }

  lemma ShardIsWide<T>(packed: seq<T>, rows: nat, tp: nat)
    requires |packed| == tp * rows && tp >= 1
    ensures |Shards(packed, rows, tp)[0]| == rows
  {
    PiecesFit(0, tp, rows);
  }

  /** Packing, sharding over any `tp` that divides the key-value heads and merging gives back q, k and v row for row. */
  lemma MergeUndoesPacking<T>(sh: Shape, x: Qkv<T>, tp: nat, p: nat)
    requires ValidShape(sh) && Fits(sh, x) && tp >= 1 && p >= 1 && sh.kvHeads == tp * p
    ensures |Packed(sh, x)| == tp * (p * Width(sh))
    ensures Merged(Shards(Packed(sh, x), p * Width(sh), tp), sh.kvHeads * sh.queriesPerKv, sh.kvHeads) == Ok(x)
  {
    PackedLength(sh, x);
    ShardRows(sh, tp, p);
    var shards := Shards(Packed(sh, x), p * Width(sh), tp);
    ShardIsWide(Packed(sh, x), p * Width(sh), tp);
    SizesFit(sh, tp, p, shards);
    MergeShardsOfPacked(sh, x, tp, p, shards);
  }

  lemma PartMerges<T>(sh: Shape, x: Qkv<T>, tp: nat, p: nat, shards: seq<seq<T>>, n: nat)
    requires ValidShape(sh) && Fits(sh, x) && sh.kvHeads == tp * p && p >= 1 && n < tp
    requires |Packed(sh, x)| == tp * (p * Width(sh)) && shards == Shards(Packed(sh, x), p * Width(sh), tp)
    ensures Start(p, n) <= sh.kvHeads && Start(p, n + 1) <= sh.kvHeads
    ensures Merges(p, QueryRows(sh), sh.headDim, shards[n], FirstHeads(sh, x, Start(p, n)), FirstHeads(sh, x, Start(p, n + 1)))
  {
    StartFits(sh, tp, p, n + 1);
    ShardHolds(sh, x, tp, p, shards, n);
    ShardMerges(sh, x, p, shards[n], Start(p, n));
  }

  /** The heads collected before each shard, and after the last. */
  lemma PartsOf<T>(sh: Shape, x: Qkv<T>, tp: nat, p: nat) returns (parts: seq<Qkv<T>>)
    requires Fits(sh, x) && sh.kvHeads == tp * p
    ensures |parts| == tp + 1 && parts[0] == Qkv([], [], []) && parts[tp] == x
    ensures forall n {:trigger parts[n]} :: 0 <= n <= tp ==>
      Start(p, n) <= sh.kvHeads && parts[n] == FirstHeads(sh, x, Start(p, n))
  {
    forall n | 0 <= n <= tp ensures Start(p, n) <= sh.kvHeads { StartFits(sh, tp, p, n); }
    parts := seq(tp + 1, n requires 0 <= n <= tp => FirstHeads(sh, x, Start(p, n)));
    NoHeads(sh, x);
    StartFits(sh, tp, p, tp);
    AllHeads(sh, x);
  }

  lemma MergeShardsOfPacked<T>(sh: Shape, x: Qkv<T>, tp: nat, p: nat, shards: seq<seq<T>>)
    requires ValidShape(sh) && Fits(sh, x) && sh.kvHeads == tp * p && p >= 1
    requires |Packed(sh, x)| == tp * (p * Width(sh)) && shards == Shards(Packed(sh, x), p * Width(sh), tp)
    ensures |shards| == tp && MergeUpTo(shards, tp, p, QueryRows(sh), sh.headDim) == Ok(x)
  {
    var parts := PartsOf(sh, x, tp, p);
    forall n | 0 <= n < tp ensures MergesAt(p, QueryRows(sh), sh.headDim, shards, parts, n) {
      PartMerges(sh, x, tp, p, shards, n);
    }
    MergeByParts(shards, parts, tp, p, QueryRows(sh), sh.headDim);
  }

  lemma SizesFit<T>(sh: Shape, tp: nat, p: nat, shards: seq<seq<T>>)
    requires ValidShape(sh) && tp >= 1 && p >= 1 && sh.kvHeads == tp * p && |shards| == tp && |shards[0]| == p * Width(sh)
    ensures Merged(shards, sh.kvHeads * sh.queriesPerKv, sh.kvHeads) == MergeUpTo(shards, tp, p, QueryRows(sh), sh.headDim)
  {
    SizesRecovered(sh, tp, p);
    MergedBySizes(shards, sh.kvHeads * sh.queriesPerKv, sh.kvHeads, sh.queriesPerKv, p * sh.headDim, p, QueryRows(sh), sh.headDim);
  }

  lemma AllHeads<T>(sh: Shape, x: Qkv<T>)
    requires Fits(sh, x)
    ensures FirstHeads(sh, x, sh.kvHeads) == x
  {
  }

  /** The merge, once its sizes are known. */
  lemma MergedBySizes<T>(shards: seq<seq<T>>, heads: nat, kvHeads: nat, perKv: nat, kvSize: nat, groups: nat, qs: nat, ks: nat)
    requires |shards| >= 1 && kvHeads >= 1 && groups >= 1 && heads % kvHeads == 0 && heads / kvHeads == perKv
    requires |shards[0]| % (perKv + 2) == 0 && |shards[0]| / (perKv + 2) == kvSize && kvHeads / |shards| == groups
    requires kvSize * perKv / groups == qs && kvSize / groups == ks
    ensures Merged(shards, heads, kvHeads) == MergeUpTo(shards, |shards|, groups, qs, ks)
  {
  }

  /** Packing loses nothing: different weights pack differently. */
  lemma PackingIsInjective<T>(sh: Shape, x: Qkv<T>, y: Qkv<T>)
    requires ValidShape(sh) && Fits(sh, x) && Fits(sh, y) && Packed(sh, x) == Packed(sh, y)
    ensures x == y
  {
    MergeUndoesPacking(sh, x, 1, sh.kvHeads);
    MergeUndoesPacking(sh, y, 1, sh.kvHeads);
  }
}
