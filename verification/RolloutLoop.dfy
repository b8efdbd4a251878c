/** The bookkeeping of a rollout's step loop: guard copies, teacher rescues, teacher queries and emitted samples. */
module RolloutLoop {
  import opened LoopGuard

  /** A parsed action: its key, whether it parsed, and whether executing it ends the episode. */
  datatype Proposal = Proposal(action: string, valid: bool, ends: bool)

  datatype TeacherReply = CallFailed | Proposed(p: Proposal)

  /** The outside world's answers in one step: both policies, and the screen after the action. */
  datatype Turn = Turn(student: Proposal, teacher: TeacherReply, nextAnchor: int, nextDetail: int)

  datatype Config = Config(
    maxSteps: nat,
    guardEnabled: bool, estimatorUsesGuard: bool, limits: Limits,
    teacherEnabled: bool, skipRepeated: bool,
    interventionEnabled: bool, maxCalls: nat, cooldownSteps: nat, noChangeThreshold: nat)

  /** Whether the attempt has a loop guard at all. */
  predicate Guarded(cfg: Config) {
    cfg.guardEnabled && (cfg.estimatorUsesGuard || (cfg.teacherEnabled && cfg.skipRepeated)
                         || (cfg.interventionEnabled && cfg.teacherEnabled))
  }

  // ----- teacher rescues -----

  datatype Trigger = InvalidAction | DeterministicLoop | NoStateChange

  class ConservativeTeacherIntervention {
    const enabled: bool
    const maxCalls: nat
    const cooldownSteps: nat
    const noChangeThreshold: nat
    var calls: nat
    var applications: nat
    var cooldownRemaining: nat

    ghost predicate Valid()
      reads this
    {
      applications <= calls <= maxCalls && cooldownRemaining <= cooldownSteps && (!enabled ==> calls == 0)
    }

    constructor (enabled: bool, maxCalls: nat, cooldownSteps: nat, noChangeThreshold: nat)
      ensures Valid() && calls == 0 && applications == 0 && cooldownRemaining == 0
      ensures this.enabled == enabled && this.maxCalls == maxCalls && this.cooldownSteps == cooldownSteps
      ensures this.noChangeThreshold == noChangeThreshold
    {
      this.enabled, this.maxCalls, this.cooldownSteps := enabled, maxCalls, cooldownSteps;
      this.noChangeThreshold, calls, applications, cooldownRemaining := noChangeThreshold, 0, 0, 0;
    }

    method StartStep() returns (inCooldown: bool)
      requires Valid()
      modifies this`cooldownRemaining
      ensures Valid() && inCooldown == (old(cooldownRemaining) > 0)
      ensures cooldownRemaining == if inCooldown then old(cooldownRemaining) - 1 else 0
    {
      inCooldown := cooldownRemaining > 0;
      if inCooldown { cooldownRemaining := cooldownRemaining - 1; }
    }

    /** A rescue is called for only within the budget, outside the cooldown, and for a reason. */
    method TriggerReasons(actionValid: bool, loopReason: Option<Reason>, noChangeStreak: nat, inCooldown: bool)
      returns (r: seq<Trigger>)
      ensures r != [] <==> enabled && calls < maxCalls && !inCooldown
                           && (!actionValid || loopReason.Some? || noChangeStreak >= noChangeThreshold)
      ensures r != [] ==> (InvalidAction in r <==> !actionValid)
      ensures r != [] ==> (DeterministicLoop in r <==> loopReason.Some?)
      ensures r != [] ==> (NoStateChange in r <==> noChangeStreak >= noChangeThreshold)
    {
      r := [];
      if !enabled || calls >= maxCalls || inCooldown { return; }
      if !actionValid { r := r + [InvalidAction]; }
      if loopReason.Some? { r := r + [DeterministicLoop]; }
      if noChangeStreak >= noChangeThreshold { r := r + [NoStateChange]; }
    }

    /** The budget check that would raise is ruled out by the reasons. */
    method RecordCall()
      requires Valid() && enabled && calls < maxCalls
      modifies this`calls
      ensures Valid() && calls == old(calls) + 1
    {
      calls := calls + 1;
    }

    method RecordApplication()
      requires Valid() && applications < calls
      modifies this`applications, this`cooldownRemaining
      ensures Valid() && applications == old(applications) + 1 && cooldownRemaining == cooldownSteps
    {
      applications := applications + 1;
      cooldownRemaining := cooldownSteps;
    }
  }

  // ----- rows -----

  datatype Row = Row(token: Token, valid: bool, reason: Option<Reason>, skipped: bool, future: bool, called: bool, applied: bool)

  function Tokens(rows: seq<Row>): (ts: seq<Token>)
    ensures |ts| == |rows|
  {
    seq(|rows|, i requires 0 <= i < |rows| => rows[i].token)
  }

  /** The guard's verdict on executed token `j`, if there is a guard. */
  function ReasonAt(cfg: Config, tokens: seq<Token>, j: nat): (r: Option<Reason>)
    requires j < |tokens|
    ensures r.Some? && r.value.Cycle? ==> r.value.length <= j + 1
  {
    FirstCycleIsShortest(tokens[..j + 1], cfg.limits, 2);
    if Guarded(cfg) then Verdict(tokens[..j + 1], cfg.limits) else None
  }

  /** The segment marked as repeated when token `j` was executed. */
  function SegmentAt(cfg: Config, tokens: seq<Token>, j: nat): seq<nat>
    requires j < |tokens|
  {
    if cfg.teacherEnabled && cfg.skipRepeated then RepeatedIndices(tokens[..j + 1], ReasonAt(cfg, tokens, j)) else []
  }

  /** Step `i` is in a segment that one of the first `n` tokens completed. */
  ghost predicate InSegment(cfg: Config, tokens: seq<Token>, n: nat, i: nat)
    requires n <= |tokens|
  {
    exists j :: 0 <= j < n && i in SegmentAt(cfg, tokens, j)
  }

  lemma SegmentsStay(cfg: Config, tokens: seq<Token>, t: Token, n: nat, i: nat)
    requires n <= |tokens|
    ensures InSegment(cfg, tokens + [t], n, i) == InSegment(cfg, tokens, n, i)
  {
    forall j | 0 <= j < n ensures SegmentAt(cfg, tokens + [t], j) == SegmentAt(cfg, tokens, j) {
      assert (tokens + [t])[..j + 1] == tokens[..j + 1];
    }
  }

  lemma OneMoreSegment(cfg: Config, tokens: seq<Token>, n: nat, i: nat)
    requires n < |tokens|
    ensures InSegment(cfg, tokens, n + 1, i) <==> InSegment(cfg, tokens, n, i) || i in SegmentAt(cfg, tokens, n)
  {
  }

  lemma SegmentIsInRange(cfg: Config, tokens: seq<Token>, j: nat)
    requires j < |tokens| && ValidLimits(cfg.limits)
    ensures forall i :: i in SegmentAt(cfg, tokens, j) ==> 1 <= i <= j
  {
    IndicesCoverTheStep(tokens[..j + 1], cfg.limits);
  }

  /** Marking a segment: queries not yet answered are cancelled. */
  method MarkRepeated(rows: seq<Row>, pending: set<nat>, indices: seq<nat>) returns (rows': seq<Row>, pending': set<nat>)
    requires forall k :: 0 <= k < |indices| ==> indices[k] < |rows|
    requires forall i {:trigger rows[i].future} :: 0 <= i < |rows| ==> (rows[i].future <==> i in pending)
    ensures |rows'| == |rows| && pending' == pending - set i | i in indices
    ensures forall i :: 0 <= i < |rows| ==>
      rows'[i] == if i in indices then rows[i].(skipped := true, future := false) else rows[i]
  {
    rows', pending' := rows, pending;
    for k := 0 to |indices|
      invariant |rows'| == |rows| && pending' == pending - set i | i in indices[..k]
      invariant forall i :: 0 <= i < |rows| ==>
        rows'[i] == if i in indices[..k] then rows[i].(skipped := true, future := false) else rows[i]
    {
      var i := indices[k];
      assert indices[..k + 1] == indices[..k] + [i];
      rows' := rows'[i := rows'[i].(skipped := true)];
      if i in pending' {
        pending' := pending' - {i};
        rows' := rows'[i := rows'[i].(future := false)];
      }
    }
    assert indices[..|indices|] == indices;
  }

  lemma TokensOfMarked(rows: seq<Row>, rows': seq<Row>)
    requires |rows| == |rows'| && forall i :: 0 <= i < |rows| ==> rows'[i].token == rows[i].token
    ensures Tokens(rows') == Tokens(rows)
  {
  }

  /** Skip marks are as the tokens decide; no query is pending for a skipped row. */
  ghost predicate Marked(cfg: Config, rows: seq<Row>) {
    forall i {:trigger rows[i].skipped} :: 0 <= i < |rows| ==> (rows[i].skipped <==> InSegment(cfg, Tokens(rows), |rows|, i))
  }

  ghost predicate Answering(cfg: Config, rows: seq<Row>, pending: set<nat>, n: nat)
    requires n <= |rows|
  {
    && (forall i {:trigger rows[i].future} :: 0 <= i < n ==> (rows[i].future <==> cfg.teacherEnabled && !rows[i].skipped))
    && (forall i {:trigger i in pending} :: i in pending <==> 0 <= i < n && rows[i].future)
  }

  /** The new row joins, and the segment it completes is marked. */
  method MarkStep(cfg: Config, before: seq<Row>, pendingBefore: set<nat>, row: Row, repeated: seq<nat>)
    returns (rows: seq<Row>, pending: set<nat>)
    requires Marked(cfg, before) && Answering(cfg, before, pendingBefore, |before|)
    requires !row.skipped && !row.future && ValidLimits(cfg.limits)
    requires row.reason == ReasonAt(cfg, Tokens(before) + [row.token], |before|)
    requires Guarded(cfg) ==> repeated == RepeatedIndices(Tokens(before) + [row.token], row.reason)
    ensures |rows| == |before| + 1 && Marked(cfg, rows) && Answering(cfg, rows, pending, |before|) && !rows[|before|].future
    ensures forall i :: 0 <= i < |before| ==> SameStep(rows[i], before[i])
    ensures SameStep(rows[|before|], row)
  {
    ghost var tokens := Tokens(before) + [row.token];
    rows, pending := before + [row], pendingBefore;
    assert Tokens(rows) == tokens && tokens[..|tokens|] == tokens;
    SegmentIsInRange(cfg, tokens, |before|);
    if row.reason.Some? && cfg.teacherEnabled && cfg.skipRepeated {
      assert repeated == SegmentAt(cfg, tokens, |before|);
      rows, pending := MarkRepeated(rows, pending, repeated);
      TokensOfMarked(before + [row], rows);
    } else {
      assert SegmentAt(cfg, tokens, |before|) == [];
    }
    NowMarked(cfg, before, row, rows);
  }

  /** The step's own query is submitted unless the step is marked. */
  method SubmitQuery(cfg: Config, marked: seq<Row>, pendingBefore: set<nat>) returns (rows: seq<Row>, pending: set<nat>)
    requires |marked| >= 1 && Marked(cfg, marked) && Answering(cfg, marked, pendingBefore, |marked| - 1)
    requires !marked[|marked| - 1].future
    ensures |rows| == |marked| && Marked(cfg, rows) && Answering(cfg, rows, pending, |rows|)
    ensures forall i :: 0 <= i < |rows| ==> SameStep(rows[i], marked[i])
  {
    var last := |marked| - 1;
    rows, pending := marked, pendingBefore;
    if cfg.teacherEnabled && !rows[last].skipped {
      pending := pending + {last};
      rows := rows[last := rows[last].(future := true)];
    }
    MarksStay(cfg, marked, rows);
  }

  lemma MarksStay(cfg: Config, a: seq<Row>, b: seq<Row>)
    requires Marked(cfg, a) && |a| == |b|
    requires forall i {:trigger b[i]} :: 0 <= i < |a| ==> b[i].token == a[i].token && b[i].skipped == a[i].skipped
    ensures Marked(cfg, b)
  {
    TokensOfMarked(a, b);
  }

  /** All but the query bookkeeping. */
  predicate SameStep(a: Row, b: Row) {
    a.token == b.token && a.valid == b.valid && a.reason == b.reason && a.called == b.called && a.applied == b.applied
  }

  lemma NowMarked(cfg: Config, before: seq<Row>, row: Row, rows: seq<Row>)
    requires ValidLimits(cfg.limits) && |rows| == |before| + 1 && Tokens(rows) == Tokens(before) + [row.token] && !row.skipped
    requires forall i {:trigger before[i].skipped} :: 0 <= i < |before| ==>
      (before[i].skipped <==> InSegment(cfg, Tokens(before), |before|, i))
    requires forall i {:trigger rows[i].skipped} :: 0 <= i < |rows| ==>
      (rows[i].skipped <==> i in SegmentAt(cfg, Tokens(rows), |before|) || (i < |before| && before[i].skipped))
    ensures forall i {:trigger rows[i].skipped} :: 0 <= i < |rows| ==>
      (rows[i].skipped <==> InSegment(cfg, Tokens(rows), |rows|, i))
  {
    forall i | 0 <= i < |rows| ensures rows[i].skipped <==> InSegment(cfg, Tokens(rows), |rows|, i) {
      OneMoreSegment(cfg, Tokens(rows), |before|, i);
      SegmentsStay(cfg, Tokens(before), row.token, |before|, i);
      if i == |before| {
        forall j | 0 <= j < |before| ensures i !in SegmentAt(cfg, Tokens(before), j) {
          SegmentIsInRange(cfg, Tokens(before), j);
        }
      }
    }
  }

  // ----- one step -----

  function Tok(anchor: int, detail: int, p: Proposal): Token { Token(anchor, detail, p.action) }

  /** What the guard would say of a proposal after the tokens executed so far. */
  function Judge(cfg: Config, tokens: seq<Token>, t: Token): Option<Reason> {
    if Guarded(cfg) then Verdict(tokens + [t], cfg.limits) else None
  }

  /** A teacher's action replaces the student's when it was asked for, parsed, and does not loop itself. */
  predicate Rescued(cfg: Config, tokens: seq<Token>, anchor: int, detail: int, turn: Turn, called: bool) {
    called && turn.teacher.Proposed? && turn.teacher.p.valid && Judge(cfg, tokens, Tok(anchor, detail, turn.teacher.p)).None?
  }

  /** A teacher is asked when rescues are on, some budget is left, no cooldown runs, and there is a reason. */
  predicate CallDue(cfg: Config, tokens: seq<Token>, anchor: int, detail: int, turn: Turn, calls: nat, cooldown: nat, streak: nat) {
    && cfg.interventionEnabled && cfg.teacherEnabled && calls < cfg.maxCalls && cooldown == 0
    && (!turn.student.valid || Judge(cfg, tokens, Tok(anchor, detail, turn.student)).Some? || streak >= cfg.noChangeThreshold)
  }

  function Executed(turn: Turn, applied: bool): Proposal
    requires applied ==> turn.teacher.Proposed?
  {
    if applied then turn.teacher.p else turn.student
  }

  predicate RightRow(cfg: Config, before: seq<Token>, anchor: int, detail: int, turn: Turn, row: Row) {
    && (row.applied <==> Rescued(cfg, before, anchor, detail, turn, row.called))
    && row.token == Tok(anchor, detail, Executed(turn, row.applied))
    && row.valid == (row.applied || turn.student.valid)
    && row.reason == Judge(cfg, before, row.token)
  }

  /** The live guard has seen the executed tokens, each once. */
  ghost predicate Follows(cfg: Config, guard: DeterministicLoopGuard?, tokens: seq<Token>)
    reads guard
  {
    && (guard != null <==> Guarded(cfg))
    && (guard != null ==> guard.Valid() && guard.limits == cfg.limits && guard.history == tokens)
  }

  /** A copy of the guard observes a proposal; the guard itself is left alone. */
  method Speculate(cfg: Config, guard: DeterministicLoopGuard?, t: Token, ghost tokens: seq<Token>)
    returns (copy: DeterministicLoopGuard?, reason: Option<Reason>)
    requires Follows(cfg, guard, tokens)
    ensures Follows(cfg, copy, tokens + [t]) && reason == Judge(cfg, tokens, t)
    ensures copy != null ==> fresh(copy) && (reason.Some? && reason.value.Cycle? ==> reason.value.length <= |tokens| + 1)
                             && copy.lastRepeated == RepeatedIndices(tokens + [t], reason)
  {
    copy, reason := null, None;
    if guard != null {
      copy := new DeterministicLoopGuard.Copy(guard);
      reason := copy.Observe(t);
    }
  }

  ghost predicate Configured(cfg: Config, e: ConservativeTeacherIntervention)
    reads e
  {
    && e.Valid() && e.enabled == (cfg.interventionEnabled && cfg.teacherEnabled) && e.maxCalls == cfg.maxCalls
    && e.cooldownSteps == cfg.cooldownSteps && e.noChangeThreshold == cfg.noChangeThreshold
  }

  /** Choosing the action of a step: the student's, or a teacher's in its place; the guard follows whichever it is. */
  method ChooseAction(cfg: Config, guard: DeterministicLoopGuard?, e: ConservativeTeacherIntervention,
    anchor: int, detail: int, turn: Turn, noChangeStreak: nat, ghost tokens: seq<Token>)
    returns (row: Row, next: DeterministicLoopGuard?)
    requires Follows(cfg, guard, tokens) && Configured(cfg, e)
    modifies e
    ensures Configured(cfg, e) && !row.skipped && !row.future && RightRow(cfg, tokens, anchor, detail, turn, row)
    ensures Follows(cfg, next, tokens + [row.token])
    ensures next != null ==> fresh(next) && (row.reason.Some? && row.reason.value.Cycle? ==> row.reason.value.length <= |tokens| + 1)
                             && next.lastRepeated == RepeatedIndices(tokens + [row.token], row.reason)
    ensures e.calls == old(e.calls) + (if row.called then 1 else 0)
    ensures e.applications == old(e.applications) + (if row.applied then 1 else 0)
    ensures row.called <==> CallDue(cfg, tokens, anchor, detail, turn, old(e.calls), old(e.cooldownRemaining), noChangeStreak)
    ensures e.cooldownRemaining ==
      if row.applied then cfg.cooldownSteps else if old(e.cooldownRemaining) > 0 then old(e.cooldownRemaining) - 1 else 0
  {
    var inCooldown := e.StartStep();
    var studentToken := Tok(anchor, detail, turn.student);
    var reason;
    next, reason := Speculate(cfg, guard, studentToken, tokens);
    var triggers := e.TriggerReasons(turn.student.valid, reason, noChangeStreak, inCooldown);
    row := Row(studentToken, turn.student.valid, reason, false, false, triggers != [], false);
    if triggers != [] {
      e.RecordCall();
      if turn.teacher.Proposed? {
        var teacherToken := Tok(anchor, detail, turn.teacher.p);
        var teacherGuard, teacherReason := Speculate(cfg, guard, teacherToken, tokens);
        if turn.teacher.p.valid && teacherReason.None? {
          e.RecordApplication();
          next := teacherGuard;
          row := Row(teacherToken, true, None, false, false, true, true);
        }
      }
    }
  }

  // ----- a whole attempt -----

  function AnchorAt(anchor: int, turns: seq<Turn>, i: nat): int
    requires i <= |turns|
  {
    if i == 0 then anchor else turns[i - 1].nextAnchor
  }

  function DetailAt(detail: int, turns: seq<Turn>, i: nat): int
    requires i <= |turns|
  {
    if i == 0 then detail else turns[i - 1].nextDetail
  }

  predicate RightAt(cfg: Config, anchor: int, detail: int, turns: seq<Turn>, rows: seq<Row>, i: nat)
    requires i < |rows| <= |turns|
  {
    RightRow(cfg, Tokens(rows)[..i], AnchorAt(anchor, turns, i), DetailAt(detail, turns, i), turns[i], rows[i])
  }

  /** Every row is what its step should have recorded. */
  ghost predicate AllRight(cfg: Config, anchor: int, detail: int, turns: seq<Turn>, rows: seq<Row>)
    requires |rows| <= |turns|
  {
    forall i {:trigger RightAt(cfg, anchor, detail, turns, rows, i)} :: 0 <= i < |rows| ==> RightAt(cfg, anchor, detail, turns, rows, i)
  }

  lemma RightRowsStay(cfg: Config, anchor: int, detail: int, turns: seq<Turn>, before: seq<Row>, row: Row, rows: seq<Row>)
    requires |before| < |turns| && |rows| == |before| + 1 && AllRight(cfg, anchor, detail, turns, before)
    requires forall i {:trigger rows[i]} :: 0 <= i < |before| ==> SameStep(rows[i], before[i])
    requires SameStep(rows[|before|], row)
    requires RightRow(cfg, Tokens(before), AnchorAt(anchor, turns, |before|), DetailAt(detail, turns, |before|), turns[|before|], row)
    ensures AllRight(cfg, anchor, detail, turns, rows) && Tokens(rows) == Tokens(before) + [row.token]
  {
    assert Tokens(rows) == Tokens(before) + [row.token];
    forall i | 0 <= i < |rows| ensures RightAt(cfg, anchor, detail, turns, rows, i) {
      if i < |before| {
        assert RightAt(cfg, anchor, detail, turns, before, i);
        assert Tokens(rows)[..i] == Tokens(before)[..i];
      } else {
        assert Tokens(rows)[..i] == Tokens(before);
      }
    }
  }

  function CalledUpTo(rows: seq<Row>, n: nat): nat
    requires n <= |rows|
  {
    if n == 0 then 0 else CalledUpTo(rows, n - 1) + (if rows[n - 1].called then 1 else 0)
  }

  function AppliedUpTo(rows: seq<Row>, n: nat): nat
    requires n <= |rows|
  {
    if n == 0 then 0 else AppliedUpTo(rows, n - 1) + (if rows[n - 1].applied then 1 else 0)
  }

  lemma {:induction false} CountsStay(a: seq<Row>, b: seq<Row>, n: nat)
    requires n <= |a| && n <= |b| && forall i {:trigger b[i]} :: 0 <= i < n ==> SameStep(b[i], a[i])
    ensures CalledUpTo(b, n) == CalledUpTo(a, n) && AppliedUpTo(b, n) == AppliedUpTo(a, n)
  {
    if n > 0 { CountsStay(a, b, n - 1); }
  }

  // ----- when the teacher is asked -----

  /** How many steps in a row have left the screen's detail as it was. */
  function StreakAt(detail: int, turns: seq<Turn>, i: nat): nat
    requires i <= |turns|
  {
    if i == 0 || turns[i - 1].nextDetail != DetailAt(detail, turns, i - 1) then 0 else StreakAt(detail, turns, i - 1) + 1
  }

  /** What is left of the cooldown before step `i`. */
  function CooldownAt(cfg: Config, rows: seq<Row>, i: nat): nat
    requires i <= |rows|
  {
    if i == 0 then 0
    else if rows[i - 1].applied then cfg.cooldownSteps
    else if CooldownAt(cfg, rows, i - 1) > 0 then CooldownAt(cfg, rows, i - 1) - 1
    else 0
  }

  /** The teacher was asked in step `i` exactly when that was due, by the steps before. */
  predicate DueAt(cfg: Config, anchor: int, detail: int, turns: seq<Turn>, rows: seq<Row>, i: nat)
    requires i < |rows| <= |turns|
  {
    rows[i].called <==>
      CallDue(cfg, Tokens(rows)[..i], AnchorAt(anchor, turns, i), DetailAt(detail, turns, i), turns[i],
              CalledUpTo(rows, i), CooldownAt(cfg, rows, i), StreakAt(detail, turns, i))
  }

  ghost predicate AllDue(cfg: Config, anchor: int, detail: int, turns: seq<Turn>, rows: seq<Row>)
    requires |rows| <= |turns|
  {
    forall i {:trigger DueAt(cfg, anchor, detail, turns, rows, i)} :: 0 <= i < |rows| ==> DueAt(cfg, anchor, detail, turns, rows, i)
  }

  lemma {:induction false} CooldownStaysAt(cfg: Config, a: seq<Row>, b: seq<Row>, n: nat)
    requires n <= |a| && n <= |b| && forall i {:trigger b[i]} :: 0 <= i < n ==> SameStep(b[i], a[i])
    ensures CooldownAt(cfg, b, n) == CooldownAt(cfg, a, n)
  {
    if n > 0 { CooldownStaysAt(cfg, a, b, n - 1); }
  }

  lemma DueRowsStay(cfg: Config, anchor: int, detail: int, turns: seq<Turn>, before: seq<Row>, row: Row, rows: seq<Row>)
    requires |before| < |turns| && |rows| == |before| + 1 && AllDue(cfg, anchor, detail, turns, before)
    requires forall i {:trigger rows[i]} :: 0 <= i < |before| ==> SameStep(rows[i], before[i])
    requires SameStep(rows[|before|], row)
    requires row.called <==> CallDue(cfg, Tokens(before), AnchorAt(anchor, turns, |before|), DetailAt(detail, turns, |before|),
      turns[|before|], CalledUpTo(before, |before|), CooldownAt(cfg, before, |before|), StreakAt(detail, turns, |before|))
    ensures AllDue(cfg, anchor, detail, turns, rows)
  {
    assert Tokens(rows) == Tokens(before) + [row.token];
    forall i | 0 <= i < |rows| ensures DueAt(cfg, anchor, detail, turns, rows, i) {
      CountsStay(before, rows, i);
      CooldownStaysAt(cfg, before, rows, i);
      if i < |before| {
        assert DueAt(cfg, anchor, detail, turns, before, i);
        assert Tokens(rows)[..i] == Tokens(before)[..i];
      } else {
        assert Tokens(rows)[..i] == Tokens(before);
      }
    }
  }

  /** After a rescue the teacher is left alone for the cooldown. */
  predicate CooldownKept(cfg: Config, rows: seq<Row>) {
    forall i, j {:trigger rows[i].applied, rows[j].called} ::
      0 <= i < j < |rows| && rows[i].applied && j - i <= cfg.cooldownSteps ==> !rows[j].called
  }

  predicate CooldownRuns(cfg: Config, rows: seq<Row>, remaining: nat) {
    forall i {:trigger rows[i].applied} :: 0 <= i < |rows| && rows[i].applied ==> remaining + (|rows| - 1 - i) >= cfg.cooldownSteps
  }

  lemma CooldownStays(cfg: Config, before: seq<Row>, row: Row, rows: seq<Row>, was: nat, now: nat)
    requires CooldownKept(cfg, before) && CooldownRuns(cfg, before, was) && |rows| == |before| + 1
    requires forall i {:trigger rows[i]} :: 0 <= i < |before| ==> SameStep(rows[i], before[i])
    requires SameStep(rows[|before|], row) && (row.called ==> was == 0)
    requires now == if row.applied then cfg.cooldownSteps else if was > 0 then was - 1 else 0
    ensures CooldownKept(cfg, rows) && CooldownRuns(cfg, rows, now)
  {
  }

  /** An action that ends the episode is the last one. */
  predicate StopsRight(turns: seq<Turn>, rows: seq<Row>, n: nat)
    requires n <= |rows| <= |turns|
  {
    forall i {:trigger ContinuesAt(turns, rows, i)} :: 0 <= i < n ==> ContinuesAt(turns, rows, i)
  }

  predicate ContinuesAt(turns: seq<Turn>, rows: seq<Row>, i: nat)
    requires i < |rows| <= |turns|
  {
    (rows[i].applied ==> turns[i].teacher.Proposed?) && !Executed(turns[i], rows[i].applied).ends
  }

  /** Everything the loop has established between steps. */
  ghost predicate Progress(cfg: Config, anchor: int, detail: int, turns: seq<Turn>, rows: seq<Row>, pending: set<nat>,
    calls: nat, applications: nat, cooldown: nat)
  {
    && |rows| <= |turns|
    && Marked(cfg, rows) && Answering(cfg, rows, pending, |rows|)
    && AllRight(cfg, anchor, detail, turns, rows) && AllDue(cfg, anchor, detail, turns, rows)
    && Counted(cfg, rows, calls, applications, cooldown)
  }

  /** The rescues so far, and the cooldown. */
  predicate Counted(cfg: Config, rows: seq<Row>, calls: nat, applications: nat, cooldown: nat) {
    && cooldown == CooldownAt(cfg, rows, |rows|)
    && CooldownKept(cfg, rows) && CooldownRuns(cfg, rows, cooldown)
    && calls == CalledUpTo(rows, |rows|) && applications == AppliedUpTo(rows, |rows|)
  }

  lemma CountingGoesOn(cfg: Config, before: seq<Row>, row: Row, rows: seq<Row>,
    calls: nat, applications: nat, wasCooldown: nat, cooldown: nat)
    requires Counted(cfg, before, calls, applications, wasCooldown) && |rows| == |before| + 1
    requires forall i {:trigger rows[i]} :: 0 <= i < |before| ==> SameStep(rows[i], before[i])
    requires SameStep(rows[|before|], row) && (row.called ==> wasCooldown == 0)
    requires cooldown == if row.applied then cfg.cooldownSteps else if wasCooldown > 0 then wasCooldown - 1 else 0
    ensures Counted(cfg, rows, calls + (if row.called then 1 else 0), applications + (if row.applied then 1 else 0), cooldown)
  {
    CooldownStaysAt(cfg, before, rows, |before|);
    CountsStay(before, rows, |before|);
    CooldownStays(cfg, before, row, rows, wasCooldown, cooldown);
  }

  lemma ProgressGoesOn(cfg: Config, anchor: int, detail: int, turns: seq<Turn>, before: seq<Row>, was: set<nat>, row: Row,
    rows: seq<Row>, pending: set<nat>, calls: nat, applications: nat, wasCooldown: nat, cooldown: nat)
    requires Progress(cfg, anchor, detail, turns, before, was, calls, applications, wasCooldown)
    requires |before| < |turns| && |rows| == |before| + 1 && Marked(cfg, rows) && Answering(cfg, rows, pending, |rows|)
    requires forall i {:trigger rows[i]} :: 0 <= i < |before| ==> SameStep(rows[i], before[i])
    requires SameStep(rows[|before|], row)
    requires RightRow(cfg, Tokens(before), AnchorAt(anchor, turns, |before|), DetailAt(detail, turns, |before|), turns[|before|], row)
    requires row.called <==> CallDue(cfg, Tokens(before), AnchorAt(anchor, turns, |before|), DetailAt(detail, turns, |before|),
      turns[|before|], calls, wasCooldown, StreakAt(detail, turns, |before|))
    requires cooldown == if row.applied then cfg.cooldownSteps else if wasCooldown > 0 then wasCooldown - 1 else 0
    ensures Progress(cfg, anchor, detail, turns, rows, pending,
      calls + (if row.called then 1 else 0), applications + (if row.applied then 1 else 0), cooldown)
    ensures Tokens(rows) == Tokens(before) + [row.token]
  {
    RightRowsStay(cfg, anchor, detail, turns, before, row, rows);
    DueRowsStay(cfg, anchor, detail, turns, before, row, rows);
    CountingGoesOn(cfg, before, row, rows, calls, applications, wasCooldown, cooldown);
  }

  /** One step of the loop. */
  method TakeStep(cfg: Config, anchor0: int, detail0: int, turns: seq<Turn>, guard: DeterministicLoopGuard?,
    e: ConservativeTeacherIntervention, anchor: int, detail: int, before: seq<Row>, was: set<nat>, noChangeStreak: nat)
    returns (rows: seq<Row>, pending: set<nat>, next: DeterministicLoopGuard?)
    requires ValidLimits(cfg.limits) && |before| < |turns| && Configured(cfg, e) && Follows(cfg, guard, Tokens(before))
    requires anchor == AnchorAt(anchor0, turns, |before|) && detail == DetailAt(detail0, turns, |before|)
    requires noChangeStreak == StreakAt(detail0, turns, |before|)
    requires Progress(cfg, anchor0, detail0, turns, before, was, e.calls, e.applications, e.cooldownRemaining)
    modifies e
    ensures Configured(cfg, e) && Follows(cfg, next, Tokens(rows)) && (next != null ==> fresh(next))
    ensures |rows| == |before| + 1 && Progress(cfg, anchor0, detail0, turns, rows, pending, e.calls, e.applications, e.cooldownRemaining)
    ensures forall i {:trigger rows[i]} :: 0 <= i < |before| ==> SameStep(rows[i], before[i])
  {
    ghost var calls, applications, cooldown := e.calls, e.applications, e.cooldownRemaining;
    var row;
    row, next := ChooseAction(cfg, guard, e, anchor, detail, turns[|before|], noChangeStreak, Tokens(before));
    var repeated := [];
    if next != null { repeated := next.lastRepeated; }
    ReasonIsJudged(cfg, Tokens(before), row.token);
    rows, pending := MarkStep(cfg, before, was, row, repeated);
    rows, pending := SubmitQuery(cfg, rows, pending);
    ProgressGoesOn(cfg, anchor0, detail0, turns, before, was, row, rows, pending, calls, applications, cooldown, e.cooldownRemaining);
  }

  lemma ReasonIsJudged(cfg: Config, tokens: seq<Token>, t: Token)
    ensures ReasonAt(cfg, tokens + [t], |tokens|) == Judge(cfg, tokens, t)
  {
    assert (tokens + [t])[..|tokens| + 1] == tokens + [t];
  }

  /** The step loop of an attempt: until an action ends the episode, or the step limit. */
  method RunAttempt(cfg: Config, anchor0: int, detail0: int, turns: seq<Turn>) returns (rows: seq<Row>, calls: nat, applications: nat)
    requires ValidLimits(cfg.limits) && |turns| >= cfg.maxSteps >= 1
    ensures 1 <= |rows| <= cfg.maxSteps && exists pending, cooldown ::
      Progress(cfg, anchor0, detail0, turns, rows, pending, calls, applications, cooldown)
    ensures applications <= calls <= cfg.maxCalls
    ensures StopsRight(turns, rows, |rows| - 1)
    ensures |rows| < cfg.maxSteps ==> !ContinuesAt(turns, rows, |rows| - 1)
  {
    var guard: DeterministicLoopGuard? := null;
    if Guarded(cfg) { guard := new DeterministicLoopGuard(cfg.limits); }
    var e := new ConservativeTeacherIntervention(
      cfg.interventionEnabled && cfg.teacherEnabled, cfg.maxCalls, cfg.cooldownSteps, cfg.noChangeThreshold);
    var pending: set<nat>, streak: nat, anchor, detail := {}, 0, anchor0, detail0;
    rows := [];
    var ended := false;
    while |rows| < cfg.maxSteps && !ended
      invariant |rows| <= cfg.maxSteps && fresh(e) && (guard != null ==> fresh(guard))
      invariant Configured(cfg, e) && Follows(cfg, guard, Tokens(rows))
      invariant Progress(cfg, anchor0, detail0, turns, rows, pending, e.calls, e.applications, e.cooldownRemaining)
      invariant ended ==> |rows| >= 1 && StopsRight(turns, rows, |rows| - 1) && !ContinuesAt(turns, rows, |rows| - 1)
      invariant !ended ==> StopsRight(turns, rows, |rows|)
      invariant !ended ==> anchor == AnchorAt(anchor0, turns, |rows|) && detail == DetailAt(detail0, turns, |rows|)
      invariant !ended ==> streak == StreakAt(detail0, turns, |rows|)
      decreases cfg.maxSteps - |rows|, !ended
    {
      var n := |rows|;
      ghost var before := rows;
      rows, pending, guard := TakeStep(cfg, anchor0, detail0, turns, guard, e, anchor, detail, rows, pending, streak);
      StopsStay(turns, before, rows, n);
      assert RightAt(cfg, anchor0, detail0, turns, rows, n);
      var executed := Executed(turns[n], rows[n].applied);
      if executed.ends {
        ended := true;
      } else {
        streak := if turns[n].nextDetail != detail then 0 else streak + 1;
        anchor, detail := turns[n].nextAnchor, turns[n].nextDetail;
        assert ContinuesAt(turns, rows, n);
      }
    }
    calls, applications := e.calls, e.applications;
  }

  lemma StopsStay(turns: seq<Turn>, before: seq<Row>, rows: seq<Row>, n: nat)
    requires n == |before| <= |rows| <= |turns| && StopsRight(turns, before, n)
    requires forall i {:trigger rows[i]} :: 0 <= i < n ==> SameStep(rows[i], before[i])
    ensures StopsRight(turns, rows, n)
  {
    forall i | 0 <= i < n ensures ContinuesAt(turns, rows, i) { assert ContinuesAt(turns, before, i); }
  }

  // ----- what an attempt reports and emits -----

  function Queries(rows: seq<Row>, n: nat): nat
    requires n <= |rows|
  {
    if n == 0 then 0 else Queries(rows, n - 1) + (if rows[n - 1].future then 1 else 0)
  }

  function Skips(rows: seq<Row>, n: nat): nat
    requires n <= |rows|
  {
    if n == 0 then 0 else Skips(rows, n - 1) + (if rows[n - 1].skipped then 1 else 0)
  }

  /** The rows that become samples. */
  function Emitted(cfg: Config, rows: seq<Row>, n: nat): seq<Row>
    requires n <= |rows|
  {
    if n == 0 then []
    else Emitted(cfg, rows, n - 1) + (if cfg.teacherEnabled && rows[n - 1].skipped then [] else [rows[n - 1]])
  }

  /** With a teacher every step has a pending query or a skip mark, never both. */
  lemma {:induction false} QueriesAndSkipsAddUp(cfg: Config, rows: seq<Row>, pending: set<nat>, n: nat)
    requires cfg.teacherEnabled && n <= |rows| && Answering(cfg, rows, pending, |rows|)
    ensures Queries(rows, n) + Skips(rows, n) == n
    ensures |Emitted(cfg, rows, n)| == Queries(rows, n)
    ensures forall k :: 0 <= k < |Emitted(cfg, rows, n)| ==> Emitted(cfg, rows, n)[k].future
  {
    if n > 0 {
      QueriesAndSkipsAddUp(cfg, rows, pending, n - 1);
      assert rows[n - 1].future <==> !rows[n - 1].skipped;
    }
  }

  lemma FirstStepIsUnmarked(cfg: Config, rows: seq<Row>)
    requires ValidLimits(cfg.limits) && Marked(cfg, rows) && |rows| >= 1
    ensures !rows[0].skipped
  {
    forall j | 0 <= j < |rows| ensures 0 !in SegmentAt(cfg, Tokens(rows), j) { SegmentIsInRange(cfg, Tokens(rows), j); }
  }

  /** Without a teacher every step is emitted. */
  lemma {:induction false} EverythingIsEmittedWithoutTeacher(cfg: Config, rows: seq<Row>, n: nat)
    requires !cfg.teacherEnabled && n <= |rows|
    ensures Emitted(cfg, rows, n) == rows[..n]
  {
    if n > 0 { EverythingIsEmittedWithoutTeacher(cfg, rows, n - 1); }
  }

  /** The first step is never skipped, so something is always emitted. */
  lemma FirstStepIsEmitted(cfg: Config, rows: seq<Row>, n: nat)
    requires ValidLimits(cfg.limits) && Marked(cfg, rows) && 1 <= n <= |rows|
    ensures !rows[0].skipped && Emitted(cfg, rows, n) != [] && Emitted(cfg, rows, n)[0] == rows[0]
  {
    FirstStepIsUnmarked(cfg, rows);
    EmittedStart(cfg, rows, n);
  }

  lemma {:induction false} EmittedStart(cfg: Config, rows: seq<Row>, n: nat)
    requires 1 <= n <= |rows| && !rows[0].skipped
    ensures Emitted(cfg, rows, n) != [] && Emitted(cfg, rows, n)[0] == rows[0]
  {
    if n == 1 { assert Emitted(cfg, rows, 0) == []; } else { EmittedStart(cfg, rows, n - 1); }
  }

  /** A skipped step repeats an earlier one. */
  lemma SkippedOnlyWhenBlocked(cfg: Config, rows: seq<Row>, i: nat) returns (j: nat)
    requires Marked(cfg, rows) && i < |rows| && rows[i].skipped
    ensures cfg.teacherEnabled && cfg.skipRepeated && j < |rows| && ReasonAt(cfg, Tokens(rows), j).Some?
    ensures i in RepeatedIndices(Tokens(rows)[..j + 1], ReasonAt(cfg, Tokens(rows), j))
  {
    j :| 0 <= j < |rows| && i in SegmentAt(cfg, Tokens(rows), j);
  }

  /** A blocked step is always in the segment it completes, so with skipping on its query is never sent. */
  lemma BlockedStepsAreSkipped(cfg: Config, rows: seq<Row>, j: nat)
    requires ValidLimits(cfg.limits) && Marked(cfg, rows) && j < |rows| && cfg.teacherEnabled && cfg.skipRepeated
    requires ReasonAt(cfg, Tokens(rows), j).Some?
    ensures rows[j].skipped
  {
    IndicesCoverTheStep(Tokens(rows)[..j + 1], cfg.limits);
    assert j in SegmentAt(cfg, Tokens(rows), j);
  }

  /** A teacher's action is never one the guard blocks. */
  lemma RescuesNeverLoop(cfg: Config, anchor: int, detail: int, turns: seq<Turn>, rows: seq<Row>, i: nat)
    requires |rows| <= |turns| && AllRight(cfg, anchor, detail, turns, rows) && i < |rows| && rows[i].applied
    ensures rows[i].called && rows[i].valid && ReasonAt(cfg, Tokens(rows), i).None?
  {
    assert RightAt(cfg, anchor, detail, turns, rows, i);
    assert Tokens(rows)[..i + 1] == Tokens(rows)[..i] + [rows[i].token];
  }
}
