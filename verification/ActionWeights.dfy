/** Action weights whose flat weighted mean is the mean over prompts of means over trajectories of means over actions. */
module ActionWeights {
  import opened Sums

  datatype Option<+T> = None | Some(value: T)

  datatype Error = GroupLength | ValidLength | CrossedPrompts | NoValidRows | ScaleNotPositive

  datatype Result<T> = Ok(value: T) | Err(error: Error)

  type Uid = string

  /** One row per action: its prompt group, its trajectory, and whether it is valid. */
  datatype Batch = Batch(prompts: seq<Uid>, trajectories: seq<Uid>, valid: seq<bool>)

  predicate Shaped(b: Batch) { |b.prompts| == |b.trajectories| == |b.valid| }

  /** A trajectory belongs to one prompt. */
  predicate OnePromptEach(b: Batch)
    requires Shaped(b)
  {
    forall i, j {:trigger b.trajectories[i], b.trajectories[j]} :: 0 <= i < j < |b.prompts| && b.trajectories[i] == b.trajectories[j] ==>
      b.prompts[i] == b.prompts[j]
  }

  /** Prompts with a valid row. */
  ghost function Active(b: Batch): set<Uid>
    requires Shaped(b)
  {
    set i | 0 <= i < |b.valid| && b.valid[i] :: b.prompts[i]
  }

  /** Trajectories with a valid row, of one prompt, among the first `n` rows. */
  ghost function TrajectoriesOf(b: Batch, p: Uid, n: nat): set<Uid>
    requires Shaped(b) && n <= |b.valid|
  {
    set i | 0 <= i < n && b.valid[i] && b.prompts[i] == p :: b.trajectories[i]
  }

  ghost function Trajectories(b: Batch, p: Uid): set<Uid>
    requires Shaped(b)
  {
    TrajectoriesOf(b, p, |b.valid|)
  }

  /** Valid rows of one trajectory among the first `n`. */
  function Actions(b: Batch, t: Uid, n: nat): nat
    requires Shaped(b) && n <= |b.valid|
  {
    if n == 0 then 0 else Actions(b, t, n - 1) + (if b.valid[n - 1] && b.trajectories[n - 1] == t then 1 else 0)
  }

  function ValidCount(valid: seq<bool>, n: nat): nat
    requires n <= |valid|
  {
    if n == 0 then 0 else ValidCount(valid, n - 1) + (if valid[n - 1] then 1 else 0)
  }

  function Scale(b: Batch, normalizer: Option<int>): int {
    if normalizer.Some? then normalizer.value else ValidCount(b.valid, |b.valid|)
  }

  /** The checks, in order. */
  ghost function Rejection(b: Batch, normalizer: Option<int>): Option<Error> {
    if |b.prompts| != |b.trajectories| then Some(GroupLength)
    else if |b.valid| != |b.prompts| then Some(ValidLength)
    else if !OnePromptEach(b) then Some(CrossedPrompts)
    else if Active(b) == {} then Some(NoValidRows)
    else if Scale(b, normalizer) <= 0 then Some(ScaleNotPositive)
    else None
  }

  // ----- counting facts -----

  lemma {:induction false} ActionCounted(b: Batch, t: Uid, n: nat, i: nat)
    requires Shaped(b) && i < n <= |b.valid| && b.valid[i] && b.trajectories[i] == t
    ensures Actions(b, t, n) >= 1
  {
    if i < n - 1 { ActionCounted(b, t, n - 1, i); }
  }

  lemma ValidRowCounts(b: Batch, i: nat)
    requires Shaped(b) && i < |b.valid| && b.valid[i]
    ensures b.prompts[i] in Active(b) && |Active(b)| >= 1
    ensures b.trajectories[i] in Trajectories(b, b.prompts[i]) && |Trajectories(b, b.prompts[i])| >= 1
    ensures Actions(b, b.trajectories[i], |b.valid|) >= 1
  {
    ActionCounted(b, b.trajectories[i], |b.valid|, i);
    assert b.prompts[i] in Active(b) && b.trajectories[i] in Trajectories(b, b.prompts[i]);
    NonemptyCounts(Active(b), b.prompts[i]);
    NonemptyCounts(Trajectories(b, b.prompts[i]), b.trajectories[i]);
  }

  lemma NonemptyCounts(s: set<Uid>, x: Uid)
    requires x in s
    ensures |s| >= 1
  {
    assert s != {};
  }

  // ----- weights -----

  ghost function WeightOf(b: Batch, scale: int, i: nat): real
    requires Shaped(b) && i < |b.valid|
  {
    if !b.valid[i] then 0.0
    else
      ValidRowCounts(b, i);
      Share(scale, |Active(b)|, |Trajectories(b, b.prompts[i])|, Actions(b, b.trajectories[i], |b.valid|))
  }

  /** `scale / (prompts * trajectories * actions)`. */
  function Share(scale: int, prompts: nat, trajectories: nat, actions: nat): real
    requires prompts >= 1 && trajectories >= 1 && actions >= 1
  {
    scale as real / (prompts as real * trajectories as real * actions as real)
  }

  /** The two dictionary passes. */
  method HierarchicalActionWeights(b: Batch, normalizer: Option<int>) returns (r: Result<seq<real>>)
    ensures Rejection(b, normalizer).Some? ==> r == Err(Rejection(b, normalizer).value)
    ensures Rejection(b, normalizer).None? ==> r.Ok? && Weighted(b, Scale(b, normalizer), r.value)
  {
    if |b.prompts| != |b.trajectories| { return Err(GroupLength); }
    if |b.valid| != |b.prompts| { return Err(ValidLength); }
    var tallied := Tally(b);
    if tallied.None? { return Err(CrossedPrompts); }
    var actions, perPrompt := tallied.value.actions, tallied.value.perPrompt;
    var active := map p | p in perPrompt && perPrompt[p] != {} :: perPrompt[p];
    ActiveKeys(b, perPrompt);
    if active == map[] { return Err(NoValidRows); }
    var scale := Scale(b, normalizer);
    if scale <= 0 { return Err(ScaleNotPositive); }
    var weights := FillWeights(b, scale, active, actions);
    r := Ok(weights);
  }

  ghost predicate Weighted(b: Batch, scale: int, w: seq<real>)
    requires Shaped(b)
  {
    |w| == |b.valid| && forall i {:trigger w[i]} :: 0 <= i < |w| ==> w[i] == WeightOf(b, scale, i)
  }

  method FillWeights(b: Batch, scale: int, active: map<Uid, set<Uid>>, actions: map<Uid, nat>) returns (weights: seq<real>)
    requires Shaped(b) && active.Keys == Active(b) && forall p :: p in active ==> active[p] == Trajectories(b, p)
    requires forall u {:trigger u in actions} {:trigger actions[u]} ::
      (u in actions <==> Actions(b, u, |b.valid|) > 0) && (u in actions ==> actions[u] == Actions(b, u, |b.valid|))
    ensures Weighted(b, scale, weights)
  {
    weights := [];
    assert |active| == |active.Keys|;
    for i := 0 to |b.valid|
      invariant |weights| == i && forall j :: 0 <= j < i ==> weights[j] == WeightOf(b, scale, j)
    {
      var w := 0.0;
      if b.valid[i] {
        ValidRowCounts(b, i);
        w := Share(scale, |active|, |active[b.prompts[i]]|, actions[b.trajectories[i]]);
      }
      weights := weights + [w];
    }
  }

  datatype Tallies = Tallies(actions: map<Uid, nat>, perPrompt: map<Uid, set<Uid>>)

  ghost predicate TalliedUpTo(b: Batch, n: nat, t: Tallies)
    requires Shaped(b) && n <= |b.valid|
  {
    && (forall u :: (u in t.actions <==> Actions(b, u, n) > 0) && (u in t.actions ==> t.actions[u] == Actions(b, u, n)))
    && (forall p :: (p in t.perPrompt <==> TrajectoriesOf(b, p, n) != {}) && (p in t.perPrompt ==> t.perPrompt[p] == TrajectoriesOf(b, p, n)))
  }

  /** Which prompt each trajectory seen so far belongs to. */
  ghost predicate PromptsUpTo(b: Batch, n: nat, prompt: map<Uid, Uid>)
    requires Shaped(b) && n <= |b.valid|
  {
    && (forall i :: 0 <= i < n ==> b.trajectories[i] in prompt && prompt[b.trajectories[i]] == b.prompts[i])
    && (forall t :: t in prompt ==> exists i :: 0 <= i < n && b.trajectories[i] == t && b.prompts[i] == prompt[t])
  }

  /** Counts per trajectory and trajectories per prompt, unless a trajectory crosses prompts. */
  method Tally(b: Batch) returns (r: Option<Tallies>)
    requires Shaped(b)
    ensures r.Some? <==> OnePromptEach(b)
    ensures r.Some? ==> TalliedUpTo(b, |b.valid|, r.value)
  {
    var prompt: map<Uid, Uid>, t := map[], Tallies(map[], map[]);
    for n := 0 to |b.valid|
      invariant PromptsUpTo(b, n, prompt) && TalliedUpTo(b, n, t)
    {
      if b.trajectories[n] !in prompt { prompt := prompt[b.trajectories[n] := b.prompts[n]]; }
      if prompt[b.trajectories[n]] != b.prompts[n] { return None; }
      t := TallyRow(b, n, t);
    }
    r := Some(t);
  }

  method TallyRow(b: Batch, n: nat, t: Tallies) returns (t': Tallies)
    requires Shaped(b) && n < |b.valid| && TalliedUpTo(b, n, t)
    ensures TalliedUpTo(b, n + 1, t')
  {
    var p, u := b.prompts[n], b.trajectories[n];
    if b.valid[n] {
      t' := Tallies(t.actions[u := (if u in t.actions then t.actions[u] else 0) + 1],
                    t.perPrompt[p := (if p in t.perPrompt then t.perPrompt[p] else {}) + {u}]);
      forall q ensures TrajectoriesOf(b, q, n + 1) == TrajectoriesOf(b, q, n) + if q == p then {u} else {} {
        TrajectoriesGrow(b, q, n);
      }
    } else {
      t' := t;
      forall q ensures TrajectoriesOf(b, q, n + 1) == TrajectoriesOf(b, q, n) { TrajectoriesGrow(b, q, n); }
    }
  }

  lemma TrajectoriesGrow(b: Batch, p: Uid, n: nat)
    requires Shaped(b) && n < |b.valid|
    ensures TrajectoriesOf(b, p, n + 1)
         == TrajectoriesOf(b, p, n) + if b.valid[n] && b.prompts[n] == p then {b.trajectories[n]} else {}
  {
  }

  lemma ActiveKeys(b: Batch, perPrompt: map<Uid, set<Uid>>)
    requires Shaped(b)
    requires forall p :: (p in perPrompt <==> Trajectories(b, p) != {}) && (p in perPrompt ==> perPrompt[p] == Trajectories(b, p))
    ensures var active := map p | p in perPrompt && perPrompt[p] != {} :: perPrompt[p];
      active.Keys == Active(b) && forall p :: p in active ==> active[p] == Trajectories(b, p)
  {
    forall p | p in Active(b) ensures Trajectories(b, p) != {} {
      var i :| 0 <= i < |b.valid| && b.valid[i] && b.prompts[i] == p;
      assert b.trajectories[i] in Trajectories(b, p);
    }
    forall p | Trajectories(b, p) != {} ensures p in Active(b) {
      var u :| u in Trajectories(b, p);
    }
  }

  // ----- the nested mean -----

  ghost function ValidRow(b: Batch): nat -> bool
    requires Shaped(b)
  {
    (i: nat) => i < |b.valid| && b.valid[i]
  }

  ghost function ValidIn(b: Batch, t: Uid): nat -> bool
    requires Shaped(b)
  {
    (i: nat) => i < |b.valid| && b.valid[i] && b.trajectories[i] == t
  }

  /** The mean loss over a trajectory's valid actions. */
  ghost function TrajectoryMean(b: Batch, losses: seq<real>, t: Uid): real
    requires Shaped(b) && |losses| == |b.valid|
  {
    var n := Actions(b, t, |b.valid|);
    if n == 0 then 0.0 else SumWhere(losses, ValidIn(b, t), |losses|) / n as real
  }

  ghost function TrajectoryMeans(b: Batch, losses: seq<real>): Uid -> real
    requires Shaped(b) && |losses| == |b.valid|
  {
    t => TrajectoryMean(b, losses, t)
  }

  /** The mean over a prompt's trajectories. */
  ghost function PromptMean(b: Batch, losses: seq<real>, p: Uid): real
    requires Shaped(b) && |losses| == |b.valid|
  {
    var n := |Trajectories(b, p)|;
    if n == 0 then 0.0 else SumOver(Trajectories(b, p), TrajectoryMeans(b, losses)) / n as real
  }

  ghost function PromptMeans(b: Batch, losses: seq<real>): Uid -> real
    requires Shaped(b) && |losses| == |b.valid|
  {
    p => PromptMean(b, losses, p)
  }

  /** The mean over prompts. */
  ghost function NestedMean(b: Batch, losses: seq<real>): real
    requires Shaped(b) && |losses| == |b.valid|
  {
    var n := |Active(b)|;
    if n == 0 then 0.0 else SumOver(Active(b), PromptMeans(b, losses)) / n as real
  }

  // ----- the flat mean -----

  ghost function Everything(): nat -> bool { (i: nat) => true }

  function Times(w: seq<real>, losses: seq<real>): (r: seq<real>)
    requires |w| == |losses|
    ensures |r| == |w|
  {
    seq(|w|, i requires 0 <= i < |w| => w[i] * losses[i])
  }

  ghost predicate Accepted(b: Batch, scale: int) {
    Shaped(b) && OnePromptEach(b) && Active(b) != {} && scale > 0
  }

  /** The weight of every action of one trajectory of one prompt. */
  ghost function CellWeight(b: Batch, scale: int, p: Uid, t: Uid): real
    requires Shaped(b) && |Active(b)| >= 1 && |Trajectories(b, p)| >= 1 && Actions(b, t, |b.valid|) >= 1
  {
    Share(scale, |Active(b)|, |Trajectories(b, p)|, Actions(b, t, |b.valid|))
  }

  lemma CellCounts(b: Batch, p: Uid, t: Uid)
    requires Shaped(b) && t in Trajectories(b, p)
    ensures p in Active(b) && |Active(b)| >= 1 && |Trajectories(b, p)| >= 1 && Actions(b, t, |b.valid|) >= 1
  {
    var i :| 0 <= i < |b.valid| && b.valid[i] && b.prompts[i] == p && b.trajectories[i] == t;
    ValidRowCounts(b, i);
  }

  ghost function InPrompt(b: Batch, p: Uid): nat -> bool
    requires Shaped(b)
  {
    KeySel(b.prompts, ValidRow(b), p)
  }

  /** Valid rows of a trajectory that has one under prompt `p` are all under `p`. */
  lemma SameCell(b: Batch, p: Uid, t: Uid, i: nat)
    requires Shaped(b) && OnePromptEach(b) && t in Trajectories(b, p) && i < |b.valid| && b.trajectories[i] == t
    ensures b.prompts[i] == p
  {
    var j :| 0 <= j < |b.valid| && b.valid[j] && b.prompts[j] == p && b.trajectories[j] == t;
  }

  lemma CellRow(b: Batch, scale: int, w: seq<real>, losses: seq<real>, p: Uid, t: Uid, i: nat)
    requires Shaped(b) && OnePromptEach(b) && Weighted(b, scale, w) && |losses| == |w| && t in Trajectories(b, p)
    requires i < |w| && ValidIn(b, t)(i)
    ensures |Active(b)| >= 1 && |Trajectories(b, p)| >= 1 && Actions(b, t, |b.valid|) >= 1
    ensures Times(w, losses)[i] == CellWeight(b, scale, p, t) * losses[i]
  {
    CellCounts(b, p, t);
    SameCell(b, p, t, i);
    assert w[i] == WeightOf(b, scale, i);
  }

  /** The rows of a trajectory are found under its prompt, all of them. */
  lemma CellIsTrajectory(b: Batch, p: Uid, t: Uid, x: seq<real>)
    requires Shaped(b) && OnePromptEach(b) && t in Trajectories(b, p) && |x| == |b.valid|
    ensures KeySum(x, b.trajectories, InPrompt(b, p), |x|, t) == SumWhere(x, ValidIn(b, t), |x|)
  {
    var cell := KeySel(b.trajectories, InPrompt(b, p), t);
    forall i | 0 <= i < |x| ensures cell(i) == ValidIn(b, t)(i) {
      if ValidIn(b, t)(i) { SameCell(b, p, t, i); }
    }
    SumWhereCongruent(x, x, cell, ValidIn(b, t), |x|);
  }

  lemma CellRowsAreScaled(b: Batch, scale: int, w: seq<real>, losses: seq<real>, p: Uid, t: Uid)
    requires Shaped(b) && OnePromptEach(b) && Weighted(b, scale, w) && |losses| == |w| && t in Trajectories(b, p)
    requires |Active(b)| >= 1 && |Trajectories(b, p)| >= 1 && Actions(b, t, |b.valid|) >= 1
    ensures var x, c := Times(w, losses), CellWeight(b, scale, p, t);
      forall i {:trigger ScaledAt(x, losses, c, i)} :: 0 <= i < |w| && ValidIn(b, t)(i) ==> ScaledAt(x, losses, c, i)
  {
    var x, c := Times(w, losses), CellWeight(b, scale, p, t);
    forall i | 0 <= i < |w| && ValidIn(b, t)(i) ensures ScaledAt(x, losses, c, i) {
      CellRow(b, scale, w, losses, p, t, i);
    }
  }

  lemma TrajectorySum(b: Batch, scale: int, w: seq<real>, losses: seq<real>, p: Uid, t: Uid)
    requires Shaped(b) && OnePromptEach(b) && Weighted(b, scale, w) && |losses| == |w| && t in Trajectories(b, p)
    ensures |Active(b)| >= 1 && |Trajectories(b, p)| >= 1 && Actions(b, t, |b.valid|) >= 1
    ensures KeySum(Times(w, losses), b.trajectories, InPrompt(b, p), |w|, t)
         == CellWeight(b, scale, p, t) * SumWhere(losses, ValidIn(b, t), |w|)
  {
    CellCounts(b, p, t);
    var x, c := Times(w, losses), CellWeight(b, scale, p, t);
    CellIsTrajectory(b, p, t, x);
    CellRowsAreScaled(b, scale, w, losses, p, t);
    SumWhereScaled(x, losses, ValidIn(b, t), c, |w|);
  }

  /** One trajectory adds its mean, weighted by its share of its prompt. */
  lemma TrajectoryShare(b: Batch, scale: int, w: seq<real>, losses: seq<real>, p: Uid, t: Uid)
    requires Shaped(b) && OnePromptEach(b) && Weighted(b, scale, w) && |losses| == |w| && t in Trajectories(b, p)
    ensures |Active(b)| >= 1 && |Trajectories(b, p)| >= 1
    ensures KeySum(Times(w, losses), b.trajectories, InPrompt(b, p), |w|, t)
         == PerTrajectory(scale, |Active(b)|, |Trajectories(b, p)|) * TrajectoryMean(b, losses, t)
  {
    TrajectorySum(b, scale, w, losses, p, t);
    ShareSplits(scale, |Active(b)|, |Trajectories(b, p)|, Actions(b, t, |b.valid|), SumWhere(losses, ValidIn(b, t), |w|));
  }

  function PerTrajectory(scale: int, prompts: nat, trajectories: nat): real
    requires prompts >= 1 && trajectories >= 1
  {
    scale as real / (prompts as real * trajectories as real)
  }

  lemma ShareSplits(scale: int, prompts: nat, trajectories: nat, actions: nat, sum: real)
    requires prompts >= 1 && trajectories >= 1 && actions >= 1
    ensures Share(scale, prompts, trajectories, actions) * sum
         == PerTrajectory(scale, prompts, trajectories) * (sum / actions as real)
  {
    QuotientOfProduct(scale as real, prompts as real * trajectories as real, actions as real, sum);
  }

  lemma QuotientOfProduct(s: real, a: real, c: real, x: real)
    requires a > 0.0 && c > 0.0
    ensures s / (a * c) * x == (s / a) * (x / c)
  {
    var q, y := s / a, x / c;
    assert s == q * a && x == y * c;
    assert s / (a * c) == q / c by { assert q / c * (a * c) == q * a; }
    assert q / c * x == q * y;
  }

  lemma ActiveCounts(b: Batch, p: Uid)
    requires Shaped(b) && p in Active(b)
    ensures |Active(b)| >= 1 && |Trajectories(b, p)| >= 1
    ensures Covers(Trajectories(b, p), b.trajectories, InPrompt(b, p), |b.valid|)
  {
    var i :| 0 <= i < |b.valid| && b.valid[i] && b.prompts[i] == p;
    ValidRowCounts(b, i);
  }

  /** A prompt's rows split by trajectory. */
  lemma PromptSplits(b: Batch, x: seq<real>, p: Uid)
    requires Shaped(b) && p in Active(b) && |x| == |b.valid|
    ensures KeySum(x, b.prompts, ValidRow(b), |x|, p)
         == SumOver(Trajectories(b, p), KeySums(x, b.trajectories, InPrompt(b, p), |x|))
  {
    ActiveCounts(b, p);
    SplitByKey(x, b.trajectories, InPrompt(b, p), Trajectories(b, p), |x|);
  }

  /** Equal parts for a prompt's trajectories are the prompt's part of its mean. */
  lemma PromptOfParts(b: Batch, scale: int, losses: seq<real>, p: Uid, f: Uid -> real, active: nat)
    requires Shaped(b) && |losses| == |b.valid| && active >= 1 && |Trajectories(b, p)| >= 1
    requires forall t {:trigger IsScaled(f, TrajectoryMeans(b, losses), PerTrajectory(scale, active, |Trajectories(b, p)|), t)} ::
      t in Trajectories(b, p) ==> IsScaled(f, TrajectoryMeans(b, losses), PerTrajectory(scale, active, |Trajectories(b, p)|), t)
    ensures SumOver(Trajectories(b, p), f) == PerPrompt(scale, active) * PromptMean(b, losses, p)
  {
    var S := Trajectories(b, p);
    TrajectoriesMakeAPrompt(scale, active, |S|);
    SumOverParts(S, f, TrajectoryMeans(b, losses), PerTrajectory(scale, active, |S|), PerPrompt(scale, active), |S|);
  }

  /** One prompt adds its mean, weighted by its share of the whole. */
  lemma PromptShare(b: Batch, scale: int, w: seq<real>, losses: seq<real>, p: Uid)
    requires Shaped(b) && OnePromptEach(b) && Weighted(b, scale, w) && |losses| == |w| && p in Active(b)
    ensures |Active(b)| >= 1
    ensures KeySum(Times(w, losses), b.prompts, ValidRow(b), |w|, p)
         == PerPrompt(scale, |Active(b)|) * PromptMean(b, losses, p)
  {
    ActiveCounts(b, p);
    PromptSplits(b, Times(w, losses), p);
    PartsAreScaled(b, scale, w, losses, p);
    PromptOfParts(b, scale, losses, p, KeySums(Times(w, losses), b.trajectories, InPrompt(b, p), |w|), |Active(b)|);
  }

  lemma PartsAreScaled(b: Batch, scale: int, w: seq<real>, losses: seq<real>, p: Uid)
    requires Shaped(b) && OnePromptEach(b) && Weighted(b, scale, w) && |losses| == |w|
    requires |Active(b)| >= 1 && |Trajectories(b, p)| >= 1
    ensures var f, g := KeySums(Times(w, losses), b.trajectories, InPrompt(b, p), |w|), TrajectoryMeans(b, losses);
      var c := PerTrajectory(scale, |Active(b)|, |Trajectories(b, p)|);
      forall t {:trigger IsScaled(f, g, c, t)} :: t in Trajectories(b, p) ==> IsScaled(f, g, c, t)
  {
    var f, g := KeySums(Times(w, losses), b.trajectories, InPrompt(b, p), |w|), TrajectoryMeans(b, losses);
    var c := PerTrajectory(scale, |Active(b)|, |Trajectories(b, p)|);
    forall t | t in Trajectories(b, p) ensures IsScaled(f, g, c, t) { TrajectoryIsScaled(b, scale, w, losses, p, t, c); }
  }

  lemma TrajectoryIsScaled(b: Batch, scale: int, w: seq<real>, losses: seq<real>, p: Uid, t: Uid, c: real)
    requires Shaped(b) && OnePromptEach(b) && Weighted(b, scale, w) && |losses| == |w| && t in Trajectories(b, p)
    requires |Active(b)| >= 1 && |Trajectories(b, p)| >= 1 && c == PerTrajectory(scale, |Active(b)|, |Trajectories(b, p)|)
    ensures IsScaled(KeySums(Times(w, losses), b.trajectories, InPrompt(b, p), |w|), TrajectoryMeans(b, losses), c, t)
  {
    TrajectoryShare(b, scale, w, losses, p, t);
  }

  lemma TrajectoriesMakeAPrompt(scale: int, prompts: nat, trajectories: nat)
    requires prompts >= 1 && trajectories >= 1
    ensures PerTrajectory(scale, prompts, trajectories) * trajectories as real == PerPrompt(scale, prompts)
  {
    QuotientOfProduct(scale as real, prompts as real, trajectories as real, trajectories as real);
  }

  function PerPrompt(scale: int, prompts: nat): real
    requires prompts >= 1
  {
    scale as real / prompts as real
  }

  lemma WholeSplits(b: Batch, scale: int, w: seq<real>, losses: seq<real>)
    requires Shaped(b) && Weighted(b, scale, w) && |losses| == |w|
    ensures SumWhere(Times(w, losses), Everything(), |w|)
         == SumOver(Active(b), KeySums(Times(w, losses), b.prompts, ValidRow(b), |w|))
  {
    OnlyValidRowsAdd(b, scale, w, losses);
    assert Covers(Active(b), b.prompts, ValidRow(b), |w|);
    SplitByKey(Times(w, losses), b.prompts, ValidRow(b), Active(b), |w|);
  }

  lemma PromptIsScaled(b: Batch, scale: int, w: seq<real>, losses: seq<real>, c: real, p: Uid)
    requires Shaped(b) && OnePromptEach(b) && Weighted(b, scale, w) && |losses| == |w| && p in Active(b)
    requires |Active(b)| >= 1 && c == PerPrompt(scale, |Active(b)|)
    ensures IsScaled(KeySums(Times(w, losses), b.prompts, ValidRow(b), |w|), PromptMeans(b, losses), c, p)
  {
    PromptShare(b, scale, w, losses, p);
  }

  lemma SomePromptActive(b: Batch)
    requires Shaped(b) && Active(b) != {}
    ensures |Active(b)| >= 1
  {
    var p :| p in Active(b);
    NonemptyCounts(Active(b), p);
  }

  lemma OnlyValidRowsAdd(b: Batch, scale: int, w: seq<real>, losses: seq<real>)
    requires Shaped(b) && Weighted(b, scale, w) && |losses| == |w|
    ensures SumWhere(Times(w, losses), Everything(), |w|) == SumWhere(Times(w, losses), ValidRow(b), |w|)
  {
    forall i | 0 <= i < |w| && !ValidRow(b)(i) ensures Times(w, losses)[i] == 0.0 { assert w[i] == WeightOf(b, scale, i); }
    SumWhereDropsZeros(Times(w, losses), Everything(), ValidRow(b), |w|);
  }

  /**
   * The weighted sum of row losses over the normaliser is the mean over prompts of the means over trajectories of the
   * means over valid actions, whatever the losses.
   */
  lemma FlatMeanIsNestedMean(b: Batch, scale: int, w: seq<real>, losses: seq<real>)
    requires Accepted(b, scale) && Weighted(b, scale, w) && |losses| == |w|
    ensures SumWhere(Times(w, losses), Everything(), |w|) / scale as real == NestedMean(b, losses)
  {
    SomePromptActive(b);
    WholeSplits(b, scale, w, losses);
    var f, g := KeySums(Times(w, losses), b.prompts, ValidRow(b), |w|), PromptMeans(b, losses);
    var c := PerPrompt(scale, |Active(b)|);
    forall p | p in Active(b) ensures IsScaled(f, g, c, p) { PromptIsScaled(b, scale, w, losses, c, p); }
    SumOverShares(Active(b), f, g, c, scale as real, |Active(b)|);
  }

  // ----- shares -----

  function Ones(n: nat): seq<real> { seq(n, _ => 1.0) }

  lemma {:induction false} CountIsSumOfOnes(b: Batch, t: Uid, m: nat, n: nat)
    requires Shaped(b) && n <= m == |b.valid|
    ensures SumWhere(Ones(m), ValidIn(b, t), n) == Actions(b, t, n) as real
  {
    if n > 0 { CountIsSumOfOnes(b, t, m, n - 1); }
  }

  lemma OnesTrajectoryMean(b: Batch, p: Uid, t: Uid)
    requires Shaped(b) && t in Trajectories(b, p)
    ensures IsOne(TrajectoryMeans(b, Ones(|b.valid|)), t)
  {
    CellCounts(b, p, t);
    var ones, n := Ones(|b.valid|), |b.valid|;
    CountIsSumOfOnes(b, t, n, n);
    assert |ones| == n && SumWhere(ones, ValidIn(b, t), |ones|) == Actions(b, t, n) as real;
    SelfQuotient(Actions(b, t, n) as real);
    assert TrajectoryMean(b, ones, t) == Actions(b, t, n) as real / Actions(b, t, n) as real;
  }

  lemma SelfQuotient(x: real)
    requires x > 0.0
    ensures x / x == 1.0
  {
  }

  lemma OnesMeanOne(b: Batch, p: Uid)
    requires Shaped(b) && p in Active(b)
    ensures PromptMean(b, Ones(|b.valid|), p) == 1.0
  {
    ActiveCounts(b, p);
    var S, f := Trajectories(b, p), TrajectoryMeans(b, Ones(|b.valid|));
    forall t | t in S ensures IsOne(f, t) { OnesTrajectoryMean(b, p, t); }
    MeanOfOnes(S, f, |S|);
  }

  lemma TimesOnes(w: seq<real>)
    ensures Times(w, Ones(|w|)) == w
  {
  }

  /** Every active prompt has the same share of the weight. */
  lemma PromptsShareEqually(b: Batch, scale: int, w: seq<real>, p: Uid)
    requires Accepted(b, scale) && Weighted(b, scale, w) && p in Active(b)
    ensures |Active(b)| >= 1
    ensures KeySum(w, b.prompts, ValidRow(b), |w|, p) == scale as real / |Active(b)| as real
  {
    PromptShare(b, scale, w, Ones(|w|), p);
    OnesMeanOne(b, p);
    TimesOnes(w);
  }

  lemma OnesNestedMean(b: Batch)
    requires Shaped(b) && Active(b) != {}
    ensures NestedMean(b, Ones(|b.valid|)) == 1.0
  {
    SomePromptActive(b);
    var f := PromptMeans(b, Ones(|b.valid|));
    forall p | p in Active(b) ensures IsOne(f, p) { OnesMeanOne(b, p); }
    MeanOfOnes(Active(b), f, |Active(b)|);
  }

  /** The weights sum to the normaliser. */
  lemma WeightsSumToScale(b: Batch, scale: int, w: seq<real>)
    requires Accepted(b, scale) && Weighted(b, scale, w)
    ensures SumWhere(w, Everything(), |w|) == scale as real
  {
    FlatMeanIsNestedMean(b, scale, w, Ones(|w|));
    OnesNestedMean(b);
    TimesOnes(w);
  }
}
