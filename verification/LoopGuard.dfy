/** The deterministic loop guard: repeated state/action pairs and repeated cycles in the history of a rollout. */
module LoopGuard {

  datatype Option<+T> = None | Some(value: T)

  /** A refined state and a normalised action; the action key is taken as it comes. */
  datatype Token = Token(anchor: int, detail: int, action: string)

  /** Why a step is blocked. */
  datatype Reason = Repeated(count: nat) | Cycle(length: nat)

  datatype Limits = Limits(repeatThreshold: nat, maxCycleLength: nat)

  predicate ValidLimits(lim: Limits) { lim.repeatThreshold >= 2 }

  /** Occurrences of `t` among the first `n` tokens. */
  function CountUpTo(h: seq<Token>, t: Token, n: nat): (c: nat)
    requires n <= |h|
    ensures c <= n
  {
    if n == 0 then 0 else CountUpTo(h, t, n - 1) + (if h[n - 1] == t then 1 else 0)
  }

  function Count(h: seq<Token>, t: Token): nat { CountUpTo(h, t, |h|) }

  /** The last `c` tokens repeat the `c` before them. */
  predicate EndsInCycle(h: seq<Token>, c: nat) {
    2 * c <= |h| && h[|h| - c..] == h[|h| - 2 * c..|h| - c]
  }

  function LongestCycle(h: seq<Token>, lim: Limits): nat {
    if lim.maxCycleLength <= |h| / 2 then lim.maxCycleLength else |h| / 2
  }

  /** The shortest repeated cycle of length `c` or more. */
  function FirstCycle(h: seq<Token>, lim: Limits, c: nat): (r: Option<Reason>)
    requires c >= 2
    decreases LongestCycle(h, lim) + 1 - c
  {
    if c > LongestCycle(h, lim) then None
    else if EndsInCycle(h, c) then Some(Cycle(c))
    else FirstCycle(h, lim, c + 1)
  }

  /** What the guard says of the last token of a history. */
  function Verdict(h: seq<Token>, lim: Limits): Option<Reason>
    requires h != []
  {
    var count := Count(h, h[|h| - 1]);
    if count >= lim.repeatThreshold then Some(Repeated(count)) else FirstCycle(h, lim, 2)
  }

  /** The segment just completed by a blocked step. */
  function RepeatedIndices(h: seq<Token>, v: Option<Reason>): seq<nat>
    requires h != [] && (v.Some? && v.value.Cycle? ==> v.value.length <= |h|)
  {
    match v
    case None => []
    case Some(Repeated(_)) => [|h| - 1]
    case Some(Cycle(c)) => LastIndices(|h|, c)
  }

  /** `range(n - c, n)`. */
  function LastIndices(n: nat, c: nat): seq<nat>
    requires c <= n
  {
    seq(c, i requires 0 <= i < c => n - c + i)
  }

  // ----- what a verdict means -----

  lemma {:induction false} FirstCycleIsShortest(h: seq<Token>, lim: Limits, c: nat)
    requires c >= 2
    ensures FirstCycle(h, lim, c).None? <==> forall d :: c <= d <= LongestCycle(h, lim) ==> !EndsInCycle(h, d)
    ensures FirstCycle(h, lim, c).Some? ==>
      var v := FirstCycle(h, lim, c).value;
      && v.Cycle? && c <= v.length <= LongestCycle(h, lim) && EndsInCycle(h, v.length)
      && forall d :: c <= d < v.length ==> !EndsInCycle(h, d)
    decreases LongestCycle(h, lim) + 1 - c
  {
    if c <= LongestCycle(h, lim) && !EndsInCycle(h, c) { FirstCycleIsShortest(h, lim, c + 1); }
  }

  /** A step is let through exactly when its pair is below the threshold and no cycle of an allowed length repeats. */
  lemma PassesIff(h: seq<Token>, lim: Limits)
    requires h != []
    ensures Verdict(h, lim).None? <==>
      Count(h, h[|h| - 1]) < lim.repeatThreshold && forall c :: 2 <= c <= lim.maxCycleLength ==> !EndsInCycle(h, c)
  {
    FirstCycleIsShortest(h, lim, 2);
  }

  /** Blocked steps mark a segment that ends at the step itself and never reaches the first step. */
  lemma IndicesCoverTheStep(h: seq<Token>, lim: Limits)
    requires h != [] && ValidLimits(lim)
    ensures var v := Verdict(h, lim);
      && (v.Some? && v.value.Cycle? ==> 2 <= v.value.length && 2 * v.value.length <= |h|)
      && (RepeatedIndices(h, v) != [] <==> v.Some?)
      && (v.Some? ==> |h| - 1 in RepeatedIndices(h, v))
      && forall i :: i in RepeatedIndices(h, v) ==> 1 <= i < |h|
  {
    FirstCycleIsShortest(h, lim, 2);
    CountNeedsRoom(h);
    var v := Verdict(h, lim);
    if v.Some? && v.value.Cycle? {
      assert RepeatedIndices(h, v)[v.value.length - 1] == |h| - 1;
    }
  }

  lemma CountNeedsRoom(h: seq<Token>)
    requires h != []
    ensures Count(h, h[|h| - 1]) <= |h|
  {
  }

  lemma {:induction false} CountFinds(h: seq<Token>, t: Token, n: nat)
    requires n <= |h|
    ensures CountUpTo(h, t, n) >= 1 ==> exists i :: 0 <= i < n && h[i] == t
  {
    if n > 0 {
      CountFinds(h, t, n - 1);
      if h[n - 1] != t && CountUpTo(h, t, n) >= 1 {
        var i :| 0 <= i < n - 1 && h[i] == t;
      }
    }
  }

  /** Only a step that repeats an earlier token can be blocked. */
  lemma BlockedStepsRepeat(h: seq<Token>, lim: Limits)
    requires h != [] && ValidLimits(lim) && Verdict(h, lim).Some?
    ensures exists i :: 0 <= i < |h| - 1 && h[i] == h[|h| - 1]
  {
    var v, last := Verdict(h, lim).value, |h| - 1;
    FirstCycleIsShortest(h, lim, 2);
    if v.Repeated? {
      CountFinds(h, h[last], last);
      var i :| 0 <= i < last && h[i] == h[last];
    } else {
      var c := v.length;
      assert h[last] == h[|h| - c..][c - 1] == h[|h| - 2 * c..|h| - c][c - 1] == h[last - c];
    }
  }

  // ----- verdicts without the functions -----

  /** The positions of a token among the first `n`. */
  ghost function Occurrences(h: seq<Token>, t: Token, n: nat): set<nat>
    requires n <= |h|
  {
    set i: nat | i < n && h[i] == t
  }

  lemma {:induction false} CountIsNumber(h: seq<Token>, t: Token, n: nat)
    requires n <= |h|
    ensures CountUpTo(h, t, n) == |Occurrences(h, t, n)|
  {
    if n > 0 {
      CountIsNumber(h, t, n - 1);
      var before := Occurrences(h, t, n - 1);
      assert Occurrences(h, t, n) == if h[n - 1] == t then before + {n - 1} else before;
    }
  }

  /** Each of the last `c` tokens is the one `c` places before it. */
  predicate RepeatsBack(h: seq<Token>, c: nat) {
    2 * c <= |h| && forall i {:trigger h[i]} :: |h| - c <= i < |h| ==> h[i] == h[i - c]
  }

  lemma CycleRepeatsBack(h: seq<Token>, c: nat)
    ensures EndsInCycle(h, c) <==> RepeatsBack(h, c)
  {
    if 2 * c <= |h| {
      var last, before := h[|h| - c..], h[|h| - 2 * c..|h| - c];
      if EndsInCycle(h, c) {
        forall i | |h| - c <= i < |h| ensures h[i] == h[i - c] { assert last[i - (|h| - c)] == before[i - (|h| - c)]; }
      }
      if RepeatsBack(h, c) {
        forall k | 0 <= k < c ensures last[k] == before[k] { assert h[|h| - c + k] == h[|h| - c + k - c]; }
      }
    }
  }

  /** The shortest allowed cycle that the history ends with. */
  predicate ShortestCycle(h: seq<Token>, lim: Limits, c: nat) {
    2 <= c <= lim.maxCycleLength && RepeatsBack(h, c) && forall d :: 2 <= d < c ==> !RepeatsBack(h, d)
  }

  /**
   * The guard's verdict and the segment it marks: the step itself when its token has come up often enough; otherwise
   * the whole of the shortest allowed cycle that the history ends with, if there is one; otherwise nothing.
   */
  lemma VerdictIsExact(h: seq<Token>, lim: Limits)
    requires h != [] && ValidLimits(lim)
    ensures var (v, n) := (Verdict(h, lim), |Occurrences(h, h[|h| - 1], |h|)|);
      && (n >= lim.repeatThreshold <==> v.Some? && v.value.Repeated?)
      && (n >= lim.repeatThreshold ==> v == Some(Repeated(n)) && forall i :: i in RepeatedIndices(h, v) <==> i == |h| - 1)
      && (v.Some? && v.value.Cycle? ==>
            && ShortestCycle(h, lim, v.value.length)
            && forall i :: i in RepeatedIndices(h, v) <==> |h| - v.value.length <= i < |h|)
      && (v.None? ==> RepeatedIndices(h, v) == [] && forall c :: 2 <= c <= lim.maxCycleLength ==> !RepeatsBack(h, c))
  {
    CountIsNumber(h, h[|h| - 1], |h|);
    FirstCycleIsShortest(h, lim, 2);
    forall c ensures EndsInCycle(h, c) <==> RepeatsBack(h, c) { CycleRepeatsBack(h, c); }
    var v := Verdict(h, lim);
    if v.Some? && v.value.Cycle? { LastIndicesAre(|h|, v.value.length); }
  }

  lemma LastIndicesAre(n: nat, c: nat)
    requires c <= n
    ensures forall i :: i in LastIndices(n, c) <==> n - c <= i < n
  {
    forall i | n - c <= i < n ensures i in LastIndices(n, c) { assert LastIndices(n, c)[i - (n - c)] == i; }
  }

  // ----- the guard -----

  lemma {:induction false} CountGrows(h: seq<Token>, t: Token, u: Token, n: nat)
    requires n <= |h|
    ensures CountUpTo(h + [t], u, n) == CountUpTo(h, u, n)
  {
    if n > 0 { CountGrows(h, t, u, n - 1); }
  }

  lemma CountSnoc(h: seq<Token>, t: Token)
    ensures forall u :: Count(h + [t], u) == Count(h, u) + if u == t then 1 else 0
  {
    forall u ensures Count(h + [t], u) == Count(h, u) + if u == t then 1 else 0 { CountGrows(h, t, u, |h|); }
  }

  class DeterministicLoopGuard {
    const limits: Limits
    var counts: map<Token, nat>
    var history: seq<Token>
    var lastRepeated: seq<nat>

    /** The counter agrees with the history. */
    ghost predicate Valid()
      reads this
    {
      ValidLimits(limits) && forall t :: (if t in counts then counts[t] else 0) == Count(history, t)
    }

    constructor (limits: Limits)
      requires ValidLimits(limits)
      ensures Valid() && history == [] && lastRepeated == [] && this.limits == limits
    {
      this.limits, counts, history, lastRepeated := limits, map[], [], [];
    }

    /** `copy.deepcopy`. */
    constructor Copy(other: DeterministicLoopGuard)
      requires other.Valid()
      ensures Valid() && history == other.history && lastRepeated == other.lastRepeated && limits == other.limits
    {
      limits, counts, history, lastRepeated := other.limits, other.counts, other.history, other.lastRepeated;
    }

    /** Record a token and say why it is blocked, if it is. */
    method Observe(token: Token) returns (reason: Option<Reason>)
      requires Valid()
      modifies this
      ensures Valid() && history == old(history) + [token]
      ensures reason == Verdict(history, limits)
      ensures reason.Some? && reason.value.Cycle? ==> reason.value.length <= |history|
      ensures lastRepeated == RepeatedIndices(history, reason)
    {
      CountSnoc(history, token);
      lastRepeated := [];
      counts := counts[token := (if token in counts then counts[token] else 0) + 1];
      history := history + [token];
      var count := counts[token];
      if count >= limits.repeatThreshold {
        lastRepeated := [|history| - 1];
        return Some(Repeated(count));
      }
      reason := FindCycle();
      if reason.Some? { lastRepeated := LastIndices(|history|, reason.value.length); }
    }

    /** The search for the shortest repeated cycle. */
    method FindCycle() returns (reason: Option<Reason>)
      ensures reason == FirstCycle(history, limits, 2)
      ensures reason.Some? ==> reason.value.Cycle? && reason.value.length <= |history|
    {
      var maximum := LongestCycle(history, limits);
      var c := 2;
      while c <= maximum
        invariant 2 <= c && (c > maximum + 1 ==> maximum < 2)
        invariant FirstCycle(history, limits, 2) == FirstCycle(history, limits, c)
      {
        if history[|history| - c..] == history[|history| - 2 * c..|history| - c] { return Some(Cycle(c)); }
        c := c + 1;
      }
      reason := None;
    }
  }
}
