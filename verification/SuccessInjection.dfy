/** Success replay: which failed trajectories are replaced, and what the batch is afterwards. */
module SuccessInjection {
  import opened Sequences

  datatype Option<+T> = None | Some(value: T)

  /** One action row of a rollout batch. */
  datatype Row = Row(uid: string, trajectory: string, task: string, reward: real, priority: int, step: nat)

  datatype Error =
    | InconsistentRewards(trajectory: string)
    | WrongGroupSize(uid: string, found: nat)
    | MixedTasks(uid: string)
    | UnknownPriority(priority: int)

  datatype Result<+T> = Ok(value: T) | Err(error: Error)

  datatype Replacement = Replacement(uid: string, task: string, trajectory: string, priority: int, rows: seq<nat>)

  datatype Selection = Selection(replacements: seq<Replacement>, allFailure: nat, ineligible: nat)

  // ----- groups and trajectories -----

  /** Prompt groups among the first `n` rows, in order of first appearance. */
  function Groups(rows: seq<Row>, n: nat): seq<string>
    requires n <= |rows|
  {
    if n == 0 then []
    else
      var g := Groups(rows, n - 1);
      if rows[n - 1].uid in g then g else g + [rows[n - 1].uid]
  }

  /** A group's trajectories among the first `n` rows, in order of first appearance. */
  function Trajectories(rows: seq<Row>, g: string, n: nat): seq<string>
    requires n <= |rows|
  {
    if n == 0 then []
    else
      var ts := Trajectories(rows, g, n - 1);
      if rows[n - 1].uid == g && rows[n - 1].trajectory !in ts then ts + [rows[n - 1].trajectory] else ts
  }

  /** A trajectory's rows within its group, in order. */
  function TrajectoryRows(rows: seq<Row>, g: string, t: string, n: nat): seq<nat>
    requires n <= |rows|
  {
    if n == 0 then []
    else
      var s := TrajectoryRows(rows, g, t, n - 1);
      if rows[n - 1].uid == g && rows[n - 1].trajectory == t then s + [n - 1] else s
  }

  predicate Distinct<T(==)>(s: seq<T>) { forall i, j :: 0 <= i < j < |s| ==> s[i] != s[j] }

  lemma {:induction false} GroupsAreExact(rows: seq<Row>, n: nat)
    requires n <= |rows|
    ensures Distinct(Groups(rows, n))
    ensures forall g :: g in Groups(rows, n) <==> exists i :: 0 <= i < n && rows[i].uid == g
  {
    if n > 0 { GroupsAreExact(rows, n - 1); }
  }

  lemma {:induction false} TrajectoriesAreExact(rows: seq<Row>, g: string, n: nat)
    requires n <= |rows|
    ensures Distinct(Trajectories(rows, g, n))
    ensures forall t :: t in Trajectories(rows, g, n) <==> exists i :: 0 <= i < n && rows[i].uid == g && rows[i].trajectory == t
  {
    if n > 0 { TrajectoriesAreExact(rows, g, n - 1); }
  }

  lemma {:induction false} TrajectoryRowsAreExact(rows: seq<Row>, g: string, t: string, n: nat)
    requires n <= |rows|
    ensures forall k :: 0 <= k < |TrajectoryRows(rows, g, t, n)| ==>
      var i := TrajectoryRows(rows, g, t, n)[k]; i < n && rows[i].uid == g && rows[i].trajectory == t
    ensures forall i :: 0 <= i < n && rows[i].uid == g && rows[i].trajectory == t ==> i in TrajectoryRows(rows, g, t, n)
    ensures forall i, j :: 0 <= i < j < |TrajectoryRows(rows, g, t, n)| ==> TrajectoryRows(rows, g, t, n)[i] < TrajectoryRows(rows, g, t, n)[j]
  {
    if n > 0 { TrajectoryRowsAreExact(rows, g, t, n - 1); }
  }

  /** A trajectory that appears has rows. */
  lemma TrajectoryHasRows(rows: seq<Row>, g: string, t: string)
    requires t in Trajectories(rows, g, |rows|)
    ensures TrajectoryRows(rows, g, t, |rows|) != []
    ensures forall k :: 0 <= k < |TrajectoryRows(rows, g, t, |rows|)| ==> TrajectoryRows(rows, g, t, |rows|)[k] < |rows|
  {
    TrajectoriesAreExact(rows, g, |rows|);
    TrajectoryRowsAreExact(rows, g, t, |rows|);
    var i :| 0 <= i < |rows| && rows[i].uid == g && rows[i].trajectory == t;
    assert i in TrajectoryRows(rows, g, t, |rows|);
  }

  // ----- judging a group -----

  function Abs(x: real): real { if x < 0.0 then -x else x }

  /** `np.allclose` with its default tolerances. */
  predicate Close(a: real, b: real) { Abs(a - b) <= 0.00000001 + 0.00001 * Abs(b) }

  function RewardOf(rows: seq<Row>, g: string, t: string): real
    requires t in Trajectories(rows, g, |rows|)
  {
    TrajectoryHasRows(rows, g, t);
    rows[TrajectoryRows(rows, g, t, |rows|)[0]].reward
  }

  /** All rows of a trajectory carry the same outcome. */
  predicate Consistent(rows: seq<Row>, g: string, t: string)
    requires t in Trajectories(rows, g, |rows|)
  {
    TrajectoryHasRows(rows, g, t);
    var s := TrajectoryRows(rows, g, t, |rows|);
    forall k :: 0 <= k < |s| ==> Close(rows[s[k]].reward, RewardOf(rows, g, t))
  }

  /** The first of the first `n` trajectories with mixed outcomes. */
  function FirstInconsistent(rows: seq<Row>, g: string, n: nat): Option<string>
    requires n <= |Trajectories(rows, g, |rows|)|
  {
    if n == 0 then None
    else
      var p := FirstInconsistent(rows, g, n - 1);
      if p.None? && !Consistent(rows, g, Trajectories(rows, g, |rows|)[n - 1]) then Some(Trajectories(rows, g, |rows|)[n - 1]) else p
  }

  predicate SomeSuccess(rows: seq<Row>, g: string) {
    exists k :: 0 <= k < |Trajectories(rows, g, |rows|)| && Succeeded(rows, g, k)
  }

  predicate Succeeded(rows: seq<Row>, g: string, k: nat)
    requires k < |Trajectories(rows, g, |rows|)|
  {
    RewardOf(rows, g, Trajectories(rows, g, |rows|)[k]) > 0.0
  }

  predicate OneTask(rows: seq<Row>, g: string) {
    forall i, j {:trigger rows[i].task, rows[j].task} :: 0 <= i < |rows| && 0 <= j < |rows| && rows[i].uid == g && rows[j].uid == g ==> rows[i].task == rows[j].task
  }

  datatype Outcome = Leave | Ineligible | Replace(r: Replacement)

  function TargetOf(rows: seq<Row>, g: string): Replacement
    requires Trajectories(rows, g, |rows|) != []
  {
    var ts := Trajectories(rows, g, |rows|);
    var target := ts[|ts| - 1];
    TrajectoryHasRows(rows, g, target);
    var s := TrajectoryRows(rows, g, target, |rows|);
    Replacement(g, rows[s[0]].task, target, rows[s[0]].priority, s)
  }

  /** What becomes of one group. */
  function Judge(rows: seq<Row>, g: string, size: int, eligible: set<string>): Result<Outcome>
    requires Trajectories(rows, g, |rows|) != []
  {
    var ts := Trajectories(rows, g, |rows|);
    var bad := FirstInconsistent(rows, g, |ts|);
    if bad.Some? then Err(InconsistentRewards(bad.value))
    else if SomeSuccess(rows, g) then Ok(Leave)
    else if |ts| != size then Err(WrongGroupSize(g, |ts|))
    else if !OneTask(rows, g) then Err(MixedTasks(g))
    else if TargetOf(rows, g).task !in eligible then Ok(Ineligible)
    else Ok(Replace(TargetOf(rows, g)))
  }

  lemma GroupHasTrajectories(rows: seq<Row>, g: string)
    requires g in Groups(rows, |rows|)
    ensures Trajectories(rows, g, |rows|) != []
  {
    GroupsAreExact(rows, |rows|);
    TrajectoriesAreExact(rows, g, |rows|);
    var i :| 0 <= i < |rows| && rows[i].uid == g;
    assert rows[i].trajectory in Trajectories(rows, g, |rows|);
  }

  function GroupAt(rows: seq<Row>, k: nat): (g: string)
    requires k < |Groups(rows, |rows|)|
    ensures Trajectories(rows, g, |rows|) != []
  {
    var g := Groups(rows, |rows|)[k];
    GroupHasTrajectories(rows, g);
    g
  }

  /** The selection over the first `n` groups: the first error, or everything collected. */
  function Selected(rows: seq<Row>, size: int, eligible: set<string>, n: nat): Result<Selection>
    requires n <= |Groups(rows, |rows|)|
  {
    if n == 0 then Ok(Selection([], 0, 0))
    else
      var p := Selected(rows, size, eligible, n - 1);
      if p.Err? then p
      else
        var o := Judge(rows, GroupAt(rows, n - 1), size, eligible);
        if o.Err? then Err(o.error) else Ok(Account(p.value, o.value))
  }

  function Account(s: Selection, o: Outcome): Selection {
    match o
    case Leave => s
    case Ineligible => s.(allFailure := s.allFailure + 1, ineligible := s.ineligible + 1)
    case Replace(r) => s.(replacements := s.replacements + [r], allFailure := s.allFailure + 1)
  }

  /** The first trajectory with mixed outcomes, if any; else whether some trajectory succeeded. */
  method ScanTrajectories(rows: seq<Row>, g: string) returns (bad: Option<string>, success: bool)
    ensures bad == FirstInconsistent(rows, g, |Trajectories(rows, g, |rows|)|)
    ensures bad.None? ==> (success <==> SomeSuccess(rows, g))
  {
    var ts := Trajectories(rows, g, |rows|);
    success := false;
    for k := 0 to |ts|
      invariant FirstInconsistent(rows, g, k).None?
      invariant success <==> exists j :: 0 <= j < k && Succeeded(rows, g, j)
    {
      if !Consistent(rows, g, ts[k]) {
        StaysInconsistent(rows, g, k + 1, |ts|);
        return Some(ts[k]), success;
      }
      if Succeeded(rows, g, k) { success := true; }
    }
    bad := None;
  }

  method JudgeGroup(rows: seq<Row>, g: string, size: int, eligible: set<string>) returns (r: Result<Outcome>)
    requires Trajectories(rows, g, |rows|) != []
    ensures r == Judge(rows, g, size, eligible)
  {
    var ts := Trajectories(rows, g, |rows|);
    var bad, success := ScanTrajectories(rows, g);
    if bad.Some? { return Err(InconsistentRewards(bad.value)); }
    if success { return Ok(Leave); }
    if |ts| != size { return Err(WrongGroupSize(g, |ts|)); }
    if !OneTask(rows, g) { return Err(MixedTasks(g)); }
    var target := TargetOf(rows, g);
    if target.task !in eligible { return Ok(Ineligible); }
    r := Ok(Replace(target));
  }

  lemma {:induction false} StaysInconsistent(rows: seq<Row>, g: string, k: nat, n: nat)
    requires k <= n <= |Trajectories(rows, g, |rows|)| && FirstInconsistent(rows, g, k).Some?
    ensures FirstInconsistent(rows, g, n) == FirstInconsistent(rows, g, k)
  {
    if k < n { StaysInconsistent(rows, g, k, n - 1); }
  }

  /** The group loop. */
  method SelectAllFailureReplacements(rows: seq<Row>, size: int, eligible: set<string>) returns (r: Result<Selection>)
    ensures r == Selected(rows, size, eligible, |Groups(rows, |rows|)|)
  {
    var groups := Groups(rows, |rows|);
    var soFar := Selection([], 0, 0);
    for n := 0 to |groups|
      invariant Selected(rows, size, eligible, n) == Ok(soFar)
    {
      var outcome := JudgeNext(rows, size, eligible, n, soFar);
      if outcome.Err? {
        ErrorsStay(rows, size, eligible, n + 1, |groups|);
        return Err(outcome.error);
      }
      soFar := Record(soFar, outcome.value);
    }
    r := Ok(soFar);
  }

  method Record(s: Selection, o: Outcome) returns (t: Selection)
    ensures t == Account(s, o)
  {
    var replacements, allFailure, ineligible := s.replacements, s.allFailure, s.ineligible;
    match o {
      case Leave =>
      case Ineligible => allFailure, ineligible := allFailure + 1, ineligible + 1;
      case Replace(x) => replacements, allFailure := replacements + [x], allFailure + 1;
    }
    t := Selection(replacements, allFailure, ineligible);
  }

  method JudgeNext(rows: seq<Row>, size: int, eligible: set<string>, n: nat, ghost before: Selection) returns (r: Result<Outcome>)
    requires n < |Groups(rows, |rows|)| && Selected(rows, size, eligible, n) == Ok(before)
    ensures Selected(rows, size, eligible, n + 1) == if r.Err? then Err(r.error) else Ok(Account(before, r.value))
  {
    r := JudgeGroup(rows, GroupAt(rows, n), size, eligible);
  }

  lemma {:induction false} ErrorsStay(rows: seq<Row>, size: int, eligible: set<string>, k: nat, n: nat)
    requires k <= n <= |Groups(rows, |rows|)| && Selected(rows, size, eligible, k).Err?
    ensures Selected(rows, size, eligible, n) == Selected(rows, size, eligible, k)
  {
    if k < n { ErrorsStay(rows, size, eligible, k, n - 1); }
  }

  // ----- what a selection guarantees -----

  /** A replacement is what judging its group gives. */
  predicate IsJudged(rows: seq<Row>, size: int, eligible: set<string>, r: Replacement) {
    Trajectories(rows, r.uid, |rows|) != [] && Judge(rows, r.uid, size, eligible) == Ok(Replace(r))
  }

  lemma JudgedIsTarget(rows: seq<Row>, g: string, size: int, eligible: set<string>)
    requires Trajectories(rows, g, |rows|) != [] && Judge(rows, g, size, eligible).Ok?
    ensures var o := Judge(rows, g, size, eligible).value; o.Replace? ==> o.r.uid == g && IsJudged(rows, size, eligible, o.r)
  {
  }

  predicate AllJudged(rows: seq<Row>, size: int, eligible: set<string>, rs: seq<Replacement>, groups: seq<string>) {
    && (forall k {:trigger IsJudged(rows, size, eligible, rs[k])} :: 0 <= k < |rs| ==> IsJudged(rows, size, eligible, rs[k]))
    && (forall k {:trigger rs[k]} :: 0 <= k < |rs| ==> rs[k].uid in groups)
    && (forall k, l {:trigger rs[k].uid, rs[l].uid} :: 0 <= k < l < |rs| ==> rs[k].uid != rs[l].uid)
  }

  lemma NextGroupIsNew(rows: seq<Row>, n: nat)
    requires n < |Groups(rows, |rows|)|
    ensures GroupAt(rows, n) !in Groups(rows, |rows|)[..n]
    ensures Groups(rows, |rows|)[..n + 1] == Groups(rows, |rows|)[..n] + [GroupAt(rows, n)]
  {
    GroupsAreExact(rows, |rows|);
  }

  /** Every selected trajectory is that of one group, each group gives at most one, and the counts add up. */
  lemma SelectionIsSound(rows: seq<Row>, size: int, eligible: set<string>, n: nat)
    requires n <= |Groups(rows, |rows|)| && Selected(rows, size, eligible, n).Ok?
    ensures var s := Selected(rows, size, eligible, n).value;
      && |s.replacements| + s.ineligible == s.allFailure
      && AllJudged(rows, size, eligible, s.replacements, Groups(rows, |rows|)[..n])
  {
    var s, groups := SoundSelection(rows, size, eligible, n);
  }

  lemma {:induction false} SoundSelection(rows: seq<Row>, size: int, eligible: set<string>, n: nat)
    returns (s: Selection, groups: seq<string>)
    requires n <= |Groups(rows, |rows|)| && Selected(rows, size, eligible, n).Ok?
    ensures Selected(rows, size, eligible, n) == Ok(s) && groups == Groups(rows, |rows|)[..n]
    ensures |s.replacements| + s.ineligible == s.allFailure && AllJudged(rows, size, eligible, s.replacements, groups)
  {
    if n == 0 {
      s, groups := Selection([], 0, 0), [];
    } else {
      var before, g, o := OneMoreJudged(rows, size, eligible, n);
      var b, front := SoundSelection(rows, size, eligible, n - 1);
      assert b == before;
      AccountKeepsJudged(rows, size, eligible, b, o, front, g);
      s, groups := Account(b, o), front + [g];
    }
  }

  lemma OneMoreJudged(rows: seq<Row>, size: int, eligible: set<string>, n: nat) returns (before: Selection, g: string, o: Outcome)
    requires 0 < n <= |Groups(rows, |rows|)| && Selected(rows, size, eligible, n).Ok?
    ensures Selected(rows, size, eligible, n - 1) == Ok(before) && Selected(rows, size, eligible, n) == Ok(Account(before, o))
    ensures g !in Groups(rows, |rows|)[..n - 1] && Groups(rows, |rows|)[..n] == Groups(rows, |rows|)[..n - 1] + [g]
    ensures o.Replace? ==> o.r.uid == g && IsJudged(rows, size, eligible, o.r)
  {
    NextGroupIsNew(rows, n - 1);
    before, g := Selected(rows, size, eligible, n - 1).value, GroupAt(rows, n - 1);
    o := Judge(rows, g, size, eligible).value;
    JudgedIsTarget(rows, g, size, eligible);
  }

  lemma AccountKeepsJudged(rows: seq<Row>, size: int, eligible: set<string>, s: Selection, o: Outcome, groups: seq<string>, g: string)
    requires |s.replacements| + s.ineligible == s.allFailure && AllJudged(rows, size, eligible, s.replacements, groups)
    requires g !in groups && (o.Replace? ==> o.r.uid == g && IsJudged(rows, size, eligible, o.r))
    ensures var t := Account(s, o);
      |t.replacements| + t.ineligible == t.allFailure && AllJudged(rows, size, eligible, t.replacements, groups + [g])
  {
    var t := Account(s, o);
    forall k | 0 <= k < |t.replacements| ensures IsJudged(rows, size, eligible, t.replacements[k]) {
      if k < |s.replacements| { assert IsJudged(rows, size, eligible, s.replacements[k]); }
    }
  }

  /** No eligible all-failure group is passed over. */
  lemma {:induction false} SelectionIsComplete(rows: seq<Row>, size: int, eligible: set<string>, n: nat, k: nat)
    requires k < n <= |Groups(rows, |rows|)| && Selected(rows, size, eligible, n).Ok?
    ensures Judge(rows, GroupAt(rows, k), size, eligible).Ok?
    ensures var o := Judge(rows, GroupAt(rows, k), size, eligible).value;
      o.Replace? ==> o.r in Selected(rows, size, eligible, n).value.replacements
  {
    if k < n - 1 {
      SelectionIsComplete(rows, size, eligible, n - 1, k);
    }
  }

  /** A selected group failed throughout and has `size` trajectories; its last trajectory is given up, whole. */
  lemma JudgedGroupFailed(rows: seq<Row>, size: int, eligible: set<string>, r: Replacement)
    requires IsJudged(rows, size, eligible, r)
    ensures var ts := Trajectories(rows, r.uid, |rows|);
      && |ts| == size && r.trajectory == ts[|ts| - 1] && r.task in eligible
      && (forall k :: 0 <= k < |ts| ==> !Succeeded(rows, r.uid, k))
      && r.rows == TrajectoryRows(rows, r.uid, r.trajectory, |rows|)
  {
  }

  /** Row `j` is the first of its trajectory. */
  predicate Opens(rows: seq<Row>, j: nat)
    requires j < |rows|
  {
    forall i {:trigger rows[i]} :: 0 <= i < j ==> !(rows[i].uid == rows[j].uid && rows[i].trajectory == rows[j].trajectory)
  }

  /** Every row of the group is close to the first one of its trajectory. */
  predicate RewardsAgree(rows: seq<Row>, g: string) {
    forall i, j {:trigger rows[i].reward, rows[j].reward} ::
      (0 <= i < |rows| && 0 <= j < |rows| && rows[i].uid == g && rows[j].uid == g
       && rows[i].trajectory == rows[j].trajectory && Opens(rows, j))
      ==> Close(rows[i].reward, rows[j].reward)
  }

  predicate NoneSucceeds(rows: seq<Row>, g: string) {
    forall j {:trigger rows[j].reward} :: 0 <= j < |rows| && rows[j].uid == g && Opens(rows, j) ==> rows[j].reward <= 0.0
  }

  predicate TasksEligible(rows: seq<Row>, g: string, eligible: set<string>) {
    forall i {:trigger rows[i].task} :: 0 <= i < |rows| && rows[i].uid == g ==> rows[i].task in eligible
  }

  /** The first row of a trajectory carries its outcome. */
  lemma RewardIsOfTheFirst(rows: seq<Row>, g: string, t: string) returns (j: nat)
    requires t in Trajectories(rows, g, |rows|)
    ensures j < |rows| && rows[j].uid == g && rows[j].trajectory == t && Opens(rows, j) && RewardOf(rows, g, t) == rows[j].reward
    ensures forall i :: 0 <= i < |rows| && rows[i].uid == g && rows[i].trajectory == t && Opens(rows, i) ==> i == j
  {
    TrajectoryHasRows(rows, g, t);
    TrajectoryRowsAreExact(rows, g, t, |rows|);
    var s := TrajectoryRows(rows, g, t, |rows|);
    j := s[0];
    forall i | 0 <= i < |rows| && rows[i].uid == g && rows[i].trajectory == t ensures j <= i { assert i in s; }
    assert forall i :: 0 <= i < |rows| && rows[i].uid == g && rows[i].trajectory == t && Opens(rows, i) ==> !(j < i) || rows[j].uid != g;
  }

  lemma ConsistentIff(rows: seq<Row>, g: string, t: string)
    requires t in Trajectories(rows, g, |rows|)
    ensures Consistent(rows, g, t) <==>
      forall i :: 0 <= i < |rows| && rows[i].uid == g && rows[i].trajectory == t ==> Close(rows[i].reward, RewardOf(rows, g, t))
  {
    TrajectoryHasRows(rows, g, t);
    TrajectoryRowsAreExact(rows, g, t, |rows|);
    var s := TrajectoryRows(rows, g, t, |rows|);
    if Consistent(rows, g, t) {
      forall i | 0 <= i < |rows| && rows[i].uid == g && rows[i].trajectory == t ensures Close(rows[i].reward, RewardOf(rows, g, t)) {
        assert i in s;
        var k :| 0 <= k < |s| && s[k] == i;
      }
    }
  }

  lemma {:induction false} NoInconsistentIff(rows: seq<Row>, g: string, n: nat)
    requires n <= |Trajectories(rows, g, |rows|)|
    ensures FirstInconsistent(rows, g, n).None? <==> forall k :: 0 <= k < n ==> Consistent(rows, g, Trajectories(rows, g, |rows|)[k])
  {
    if n > 0 { NoInconsistentIff(rows, g, n - 1); }
  }

  lemma AllConsistentIff(rows: seq<Row>, g: string)
    ensures FirstInconsistent(rows, g, |Trajectories(rows, g, |rows|)|).None? <==> RewardsAgree(rows, g)
  {
    var ts := Trajectories(rows, g, |rows|);
    NoInconsistentIff(rows, g, |ts|);
    TrajectoriesAreExact(rows, g, |rows|);
    if forall k :: 0 <= k < |ts| ==> Consistent(rows, g, ts[k]) {
      forall i, j | 0 <= i < |rows| && 0 <= j < |rows| && rows[i].uid == g && rows[j].uid == g
        && rows[i].trajectory == rows[j].trajectory && Opens(rows, j)
        ensures Close(rows[i].reward, rows[j].reward)
      {
        var t := rows[i].trajectory;
        assert t in ts;
        var k :| 0 <= k < |ts| && ts[k] == t;
        ConsistentIff(rows, g, t);
        var first := RewardIsOfTheFirst(rows, g, t);
      }
    }
    if RewardsAgree(rows, g) {
      forall k | 0 <= k < |ts| ensures Consistent(rows, g, ts[k]) {
        ConsistentIff(rows, g, ts[k]);
        var first := RewardIsOfTheFirst(rows, g, ts[k]);
      }
    }
  }

  lemma NoSuccessIff(rows: seq<Row>, g: string)
    ensures !SomeSuccess(rows, g) <==> NoneSucceeds(rows, g)
  {
    var ts := Trajectories(rows, g, |rows|);
    TrajectoriesAreExact(rows, g, |rows|);
    if NoneSucceeds(rows, g) {
      forall k | 0 <= k < |ts| ensures !Succeeded(rows, g, k) { var first := RewardIsOfTheFirst(rows, g, ts[k]); }
    } else {
      var j :| 0 <= j < |rows| && rows[j].uid == g && Opens(rows, j) && rows[j].reward > 0.0;
      assert rows[j].trajectory in ts;
      var k :| 0 <= k < |ts| && ts[k] == rows[j].trajectory;
      var first := RewardIsOfTheFirst(rows, g, ts[k]);
      assert Succeeded(rows, g, k);
    }
  }

  /** The trajectories of a group. */
  function TrajectoriesOf(rows: seq<Row>, g: string): set<string> { set i | 0 <= i < |rows| && rows[i].uid == g :: rows[i].trajectory }

  lemma TargetTaskIsOneOf(rows: seq<Row>, g: string)
    requires Trajectories(rows, g, |rows|) != [] && OneTask(rows, g)
    ensures forall i :: 0 <= i < |rows| && rows[i].uid == g ==> rows[i].task == TargetOf(rows, g).task
    ensures exists i :: 0 <= i < |rows| && rows[i].uid == g
  {
    var ts := Trajectories(rows, g, |rows|);
    var first := RewardIsOfTheFirst(rows, g, ts[|ts| - 1]);
    TrajectoryHasRows(rows, g, ts[|ts| - 1]);
    TrajectoryRowsAreExact(rows, g, ts[|ts| - 1], |rows|);
    var j := TrajectoryRows(rows, g, ts[|ts| - 1], |rows|)[0];
    assert rows[j].uid == g && TargetOf(rows, g).task == rows[j].task;
  }

  /**
   * A group gives up a trajectory exactly when outcomes agree within each of its trajectories, none of them succeeded,
   * it has `size` of them, and all its rows are of one task, which is eligible.
   */
  lemma ReplacedExactlyWhenFailed(rows: seq<Row>, g: string, size: int, eligible: set<string>)
    requires Trajectories(rows, g, |rows|) != []
    ensures (Judge(rows, g, size, eligible).Ok? && Judge(rows, g, size, eligible).value.Replace?) <==>
      && RewardsAgree(rows, g) && NoneSucceeds(rows, g) && |TrajectoriesOf(rows, g)| == size
      && OneTask(rows, g) && TasksEligible(rows, g, eligible)
  {
    AllConsistentIff(rows, g);
    NoSuccessIff(rows, g);
    TrajectoriesAreExact(rows, g, |rows|);
    DistinctCounts(Trajectories(rows, g, |rows|));
    assert (set x | x in Trajectories(rows, g, |rows|)) == TrajectoriesOf(rows, g);
    if OneTask(rows, g) { TargetTaskIsOneOf(rows, g); }
  }

  lemma RowsOfReplacement(rows: seq<Row>, size: int, eligible: set<string>, r: Replacement, i: nat)
    requires IsJudged(rows, size, eligible, r)
    ensures i in r.rows <==> i < |rows| && rows[i].uid == r.uid && rows[i].trajectory == r.trajectory
  {
    TrajectoryRowsAreExact(rows, r.uid, r.trajectory, |rows|);
    if i in r.rows {
      var k :| 0 <= k < |r.rows| && r.rows[k] == i;
    }
  }

  /** Replacement row sets are pairwise disjoint. */
  lemma ReplacementsAreDisjoint(rows: seq<Row>, size: int, eligible: set<string>, rs: seq<Replacement>, groups: seq<string>, k: nat, l: nat, i: nat)
    requires AllJudged(rows, size, eligible, rs, groups) && k < l < |rs| && i in rs[k].rows
    ensures i !in rs[l].rows
  {
    assert IsJudged(rows, size, eligible, rs[k]) && IsJudged(rows, size, eligible, rs[l]);
    RowsOfReplacement(rows, size, eligible, rs[k], i);
    RowsOfReplacement(rows, size, eligible, rs[l], i);
  }

  // ----- replacing -----

  /** The prompts a batch was generated from. */
  datatype Prompt = Prompt(priority: int, uid: string)

  /** A recorded success of a task. */
  datatype Episode = Episode(id: string, steps: nat)

  /** `{priority: index}` built in order: the last prompt of a priority wins. */
  function PromptByPriority(prompts: seq<Prompt>, priority: int, n: nat): (r: Option<nat>)
    requires n <= |prompts|
    ensures r.Some? ==> r.value < n
  {
    if n == 0 then None
    else if prompts[n - 1].priority == priority then Some(n - 1)
    else PromptByPriority(prompts, priority, n - 1)
  }

  function ReplayUid(trajectory: string, episode: string): string { trajectory + ":success_replay:" + episode }

  /** The recorded episode as rows of the source prompt's group, under a trajectory of its own. */
  function Materialize(e: Episode, p: Prompt, r: Replacement): (rows: seq<Row>)
    ensures |rows| == e.steps
  {
    seq(e.steps, i requires 0 <= i < e.steps => Row(p.uid, ReplayUid(r.trajectory, e.id), r.task, 1.0, p.priority, i))
  }

  function ReplayFor(library: map<string, Episode>, prompts: seq<Prompt>, r: Replacement): Result<seq<Row>>
    requires r.task in library
  {
    match PromptByPriority(prompts, r.priority, |prompts|)
    case None => Err(UnknownPriority(r.priority))
    case Some(k) => Ok(Materialize(library[r.task], prompts[k], r))
  }

  predicate Known(library: map<string, Episode>, rs: seq<Replacement>) {
    forall k {:trigger rs[k].task} :: 0 <= k < |rs| ==> rs[k].task in library
  }

  /** The replays of the first `n` replacements. */
  function Replays(library: map<string, Episode>, prompts: seq<Prompt>, rs: seq<Replacement>, n: nat): Result<seq<seq<Row>>>
    requires n <= |rs| && Known(library, rs)
  {
    if n == 0 then Ok([])
    else
      var p := Replays(library, prompts, rs, n - 1);
      if p.Err? then p
      else
        var x := ReplayFor(library, prompts, rs[n - 1]);
        if x.Err? then Err(x.error) else Ok(p.value + [x.value])
  }

  function RemovedRows(rs: seq<Replacement>): set<nat> { set k, i | 0 <= k < |rs| && i in rs[k].rows :: i }

  /** The first `n` rows without the removed ones. */
  function Kept(rows: seq<Row>, removed: set<nat>, n: nat): seq<Row>
    requires n <= |rows|
  {
    if n == 0 then []
    else if n - 1 in removed then Kept(rows, removed, n - 1)
    else Kept(rows, removed, n - 1) + [rows[n - 1]]
  }

  method MaterializeAll(library: map<string, Episode>, prompts: seq<Prompt>, rs: seq<Replacement>) returns (r: Result<seq<seq<Row>>>)
    requires Known(library, rs)
    ensures r == Replays(library, prompts, rs, |rs|)
  {
    var out: seq<seq<Row>> := [];
    for n := 0 to |rs|
      invariant Replays(library, prompts, rs, n) == Ok(out)
    {
      assert rs[n].task in library;
      var x := ReplayFor(library, prompts, rs[n]);
      if x.Err? {
        ReplayErrorsStay(library, prompts, rs, n + 1, |rs|);
        return Err(x.error);
      }
      out := out + [x.value];
    }
    r := Ok(out);
  }

  lemma {:induction false} ReplayErrorsStay(library: map<string, Episode>, prompts: seq<Prompt>, rs: seq<Replacement>, k: nat, n: nat)
    requires k <= n <= |rs| && Known(library, rs) && Replays(library, prompts, rs, k).Err?
    ensures Replays(library, prompts, rs, n) == Replays(library, prompts, rs, k)
  {
    if k < n { ReplayErrorsStay(library, prompts, rs, k, n - 1); }
  }

  /** The keep mask, and the rows it keeps. */
  method DropRows(rows: seq<Row>, rs: seq<Replacement>) returns (kept: seq<Row>)
    requires forall k, m :: 0 <= k < |rs| && 0 <= m < |rs[k].rows| ==> rs[k].rows[m] < |rows|
    ensures kept == Kept(rows, RemovedRows(rs), |rows|)
  {
    var keep := MaskOf(|rows|, rs);
    kept := [];
    for i := 0 to |rows|
      invariant kept == Kept(rows, RemovedRows(rs), i)
    {
      if keep[i] { kept := kept + [rows[i]]; }
    }
  }

  method MaskOf(n: nat, rs: seq<Replacement>) returns (keep: array<bool>)
    requires forall k, m :: 0 <= k < |rs| && 0 <= m < |rs[k].rows| ==> rs[k].rows[m] < n
    ensures fresh(keep) && keep.Length == n && forall i :: 0 <= i < n ==> (keep[i] <==> i !in RemovedRows(rs))
  {
    keep := new bool[n](i => true);
    for k := 0 to |rs|
      invariant forall i :: 0 <= i < n ==> (keep[i] <==> i !in RemovedRows(rs[..k]))
    {
      ghost var before := RemovedRows(rs[..k]);
      var s := rs[k].rows;
      for m := 0 to |s|
        invariant forall i :: 0 <= i < n ==> (keep[i] <==> i !in before && i !in s[..m])
      {
        assert s[..m + 1] == s[..m] + [s[m]];
        keep[s[m]] := false;
      }
      assert s[..|s|] == s;
      OneMoreRemoved(rs, k);
    }
    assert rs[..|rs|] == rs;
  }

  lemma OneMoreRemoved(rs: seq<Replacement>, k: nat)
    requires k < |rs|
    ensures forall i: nat :: i in RemovedRows(rs[..k + 1]) <==> i in RemovedRows(rs[..k]) || i in rs[k].rows
  {
    var a, b := rs[..k + 1], rs[..k];
    forall i: nat | i in RemovedRows(b) ensures i in RemovedRows(a) {
      var j :| 0 <= j < |b| && i in b[j].rows;
      assert a[j] == b[j];
    }
    forall i: nat | i in rs[k].rows ensures i in RemovedRows(a) { assert a[k] == rs[k]; }
    forall i: nat | i in RemovedRows(a) ensures i in RemovedRows(b) || i in rs[k].rows {
      var j :| 0 <= j < |a| && i in a[j].rows;
      if j < k { assert b[j] == a[j]; }
    }
  }

  lemma JudgedTasksAreKnown(rows: seq<Row>, size: int, library: map<string, Episode>)
    requires Selected(rows, size, library.Keys, |Groups(rows, |rows|)|).Ok?
    ensures Known(library, Selected(rows, size, library.Keys, |Groups(rows, |rows|)|).value.replacements)
  {
    SelectionIsSound(rows, size, library.Keys, |Groups(rows, |rows|)|);
    var rs := Selected(rows, size, library.Keys, |Groups(rows, |rows|)|).value.replacements;
    forall k | 0 <= k < |rs| ensures rs[k].task in library {
      assert IsJudged(rows, size, library.Keys, rs[k]);
      JudgedGroupFailed(rows, size, library.Keys, rs[k]);
    }
  }

  function Chosen(rows: seq<Row>, size: int, library: map<string, Episode>): (r: Result<seq<Replacement>>)
    ensures r.Ok? ==> Known(library, r.value) && AllJudged(rows, size, library.Keys, r.value, Groups(rows, |rows|))
  {
    var n := |Groups(rows, |rows|)|;
    var s := Selected(rows, size, library.Keys, n);
    if s.Err? then Err(s.error)
    else
      JudgedTasksAreKnown(rows, size, library);
      SelectionIsSound(rows, size, library.Keys, n);
      assert Groups(rows, |rows|)[..n] == Groups(rows, |rows|);
      Ok(s.value.replacements)
  }

  /** The batch after replacement. */
  function Replaced(rows: seq<Row>, prompts: seq<Prompt>, size: int, library: map<string, Episode>): Result<seq<Row>> {
    var rs := Chosen(rows, size, library);
    if rs.Err? then Err(rs.error)
    else
      var replays := Replays(library, prompts, rs.value, |rs.value|);
      if replays.Err? then Err(replays.error)
      else Ok(Joined(Kept(rows, RemovedRows(rs.value), |rows|), replays.value, |replays.value|))
  }

  method ReplaceAllFailureGroups(rows: seq<Row>, prompts: seq<Prompt>, size: int, library: map<string, Episode>)
    returns (r: Result<seq<Row>>)
    ensures r == Replaced(rows, prompts, size, library)
  {
    var selection := SelectAllFailureReplacements(rows, size, library.Keys);
    if selection.Err? { return Err(selection.error); }
    var rs := selection.value.replacements;
    assert Chosen(rows, size, library) == Ok(rs);
    if rs == [] {
      NothingRemoved(rows, |rows|);
      assert rows[..|rows|] == rows;
      assert Replays(library, prompts, rs, |rs|) == Ok([]);
      return Ok(rows);
    }
    var replays := MaterializeAll(library, prompts, rs);
    if replays.Err? { return Err(replays.error); }
    RowsInRange(rows, size, library.Keys, rs, Groups(rows, |rows|));
    var out := DropRows(rows, rs);
    ghost var kept := out;
    for k := 0 to |replays.value|
      invariant out == Joined(kept, replays.value, k)
    {
      out := out + replays.value[k];
    }
    r := Ok(out);
  }

  lemma {:induction false} NothingRemoved(rows: seq<Row>, n: nat)
    requires n <= |rows|
    ensures Kept(rows, RemovedRows([]), n) == rows[..n]
  {
    if n > 0 { NothingRemoved(rows, n - 1); }
  }

  lemma RowsInRange(rows: seq<Row>, size: int, eligible: set<string>, rs: seq<Replacement>, groups: seq<string>)
    requires AllJudged(rows, size, eligible, rs, groups)
    ensures forall k, m :: 0 <= k < |rs| && 0 <= m < |rs[k].rows| ==> rs[k].rows[m] < |rows|
  {
    forall k, m | 0 <= k < |rs| && 0 <= m < |rs[k].rows| ensures rs[k].rows[m] < |rows| {
      assert IsJudged(rows, size, eligible, rs[k]) && rs[k].rows[m] in rs[k].rows;
      RowsOfReplacement(rows, size, eligible, rs[k], rs[k].rows[m]);
    }
  }

  // ----- a group before and after -----

  /** The rows of group `g` among the first `n`. */
  function InGroup(s: seq<Row>, g: string, n: nat): seq<Row>
    requires n <= |s|
  {
    if n == 0 then []
    else if s[n - 1].uid == g then InGroup(s, g, n - 1) + [s[n - 1]]
    else InGroup(s, g, n - 1)
  }

  function GroupRows(s: seq<Row>, g: string): seq<Row> { InGroup(s, g, |s|) }

  /** The rows of group `g` that are not of trajectory `t`. */
  function GroupWithout(s: seq<Row>, g: string, t: string, n: nat): seq<Row>
    requires n <= |s|
  {
    if n == 0 then []
    else if s[n - 1].uid == g && s[n - 1].trajectory != t then GroupWithout(s, g, t, n - 1) + [s[n - 1]]
    else GroupWithout(s, g, t, n - 1)
  }

  lemma {:induction false} InGroupOfAppend(a: seq<Row>, b: seq<Row>, g: string, n: nat)
    requires n <= |b|
    ensures InGroup(a + b, g, |a| + n) == InGroup(a, g, |a|) + InGroup(b, g, n)
  {
    if n > 0 {
      InGroupOfAppend(a, b, g, n - 1);
    } else {
      InGroupOfPrefix(a, b, g, |a|);
    }
  }

  lemma {:induction false} InGroupOfPrefix(a: seq<Row>, b: seq<Row>, g: string, n: nat)
    requires n <= |a|
    ensures InGroup(a + b, g, n) == InGroup(a, g, n)
  {
    if n > 0 { InGroupOfPrefix(a, b, g, n - 1); }
  }

  lemma AppendedRow(a: seq<Row>, x: Row, g: string)
    ensures GroupRows(a + [x], g) == if x.uid == g then GroupRows(a, g) + [x] else GroupRows(a, g)
  {
    InGroupOfPrefix(a, [x], g, |a|);
  }

  /** Removing exactly a trajectory's rows from a group. */
  lemma {:induction false} KeptOfSelectedGroup(rows: seq<Row>, removed: set<nat>, g: string, t: string, n: nat)
    requires n <= |rows|
    requires forall i {:trigger i in removed} :: 0 <= i < |rows| && rows[i].uid == g ==> (i in removed <==> rows[i].trajectory == t)
    ensures GroupRows(Kept(rows, removed, n), g) == GroupWithout(rows, g, t, n)
  {
    if n > 0 {
      KeptOfSelectedGroup(rows, removed, g, t, n - 1);
      assert rows[n - 1].uid == g ==> (n - 1 in removed <==> rows[n - 1].trajectory == t);
      AppendedRow(Kept(rows, removed, n - 1), rows[n - 1], g);
    }
  }

  lemma {:induction false} KeptOfOtherGroup(rows: seq<Row>, removed: set<nat>, g: string, n: nat)
    requires n <= |rows|
    requires forall i {:trigger i in removed} :: 0 <= i < |rows| && rows[i].uid == g ==> i !in removed
    ensures GroupRows(Kept(rows, removed, n), g) == InGroup(rows, g, n)
  {
    if n > 0 {
      KeptOfOtherGroup(rows, removed, g, n - 1);
      assert rows[n - 1].uid == g ==> n - 1 !in removed;
      AppendedRow(Kept(rows, removed, n - 1), rows[n - 1], g);
    }
  }

  predicate AllOf(s: seq<Row>, g: string) { forall i :: 0 <= i < |s| ==> s[i].uid == g }

  lemma {:induction false} WholeGroup(s: seq<Row>, g: string, h: string, n: nat)
    requires n <= |s| && AllOf(s, g)
    ensures InGroup(s, h, n) == if g == h then s[..n] else []
  {
    if n > 0 { WholeGroup(s, g, h, n - 1); }
  }

  /** The replays, each in a group of its own. */
  predicate InTheirGroups(rs: seq<Replacement>, replays: seq<seq<Row>>) {
    |replays| == |rs| && forall k {:trigger AllOf(replays[k], rs[k].uid)} :: 0 <= k < |rs| ==> AllOf(replays[k], rs[k].uid)
  }

  /** Appended replays reach only their own groups. */
  lemma {:induction false} JoinedGroups(kept: seq<Row>, rs: seq<Replacement>, replays: seq<seq<Row>>, g: string, n: nat)
    requires InTheirGroups(rs, replays) && n <= |replays|
    requires forall k, l {:trigger rs[k].uid, rs[l].uid} :: 0 <= k < l < |rs| ==> rs[k].uid != rs[l].uid
    ensures (forall k :: 0 <= k < n ==> rs[k].uid != g) ==> GroupRows(Joined(kept, replays, n), g) == GroupRows(kept, g)
    ensures forall k :: 0 <= k < n && rs[k].uid == g ==> GroupRows(Joined(kept, replays, n), g) == GroupRows(kept, g) + replays[k]
  {
    if n > 0 {
      JoinedGroups(kept, rs, replays, g, n - 1);
      var last := replays[n - 1];
      assert AllOf(last, rs[n - 1].uid);
      InGroupOfAppend(Joined(kept, replays, n - 1), last, g, |last|);
      WholeGroup(last, rs[n - 1].uid, g, |last|);
      assert last[..|last|] == last;
    }
  }

  lemma RemovedIffTarget(rows: seq<Row>, size: int, eligible: set<string>, rs: seq<Replacement>, groups: seq<string>, i: nat)
    requires AllJudged(rows, size, eligible, rs, groups) && i < |rows|
    ensures i in RemovedRows(rs) <==> exists k :: 0 <= k < |rs| && rs[k].uid == rows[i].uid && rs[k].trajectory == rows[i].trajectory
  {
    forall k | 0 <= k < |rs| ensures i in rs[k].rows <==> rows[i].uid == rs[k].uid && rows[i].trajectory == rs[k].trajectory {
      assert IsJudged(rows, size, eligible, rs[k]);
      RowsOfReplacement(rows, size, eligible, rs[k], i);
    }
  }

  // ----- trajectories counted -----

  function TrajectorySet(s: seq<Row>): set<string> { set i | 0 <= i < |s| :: s[i].trajectory }

  lemma {:induction false} DistinctCounts(s: seq<string>)
    requires Distinct(s)
    ensures |set x | x in s| == |s|
  {
    if s != [] {
      var front, last := s[..|s| - 1], s[|s| - 1];
      DistinctCounts(front);
      assert last !in front;
      assert (set x | x in s) == (set x | x in front) + {last};
    }
  }

  lemma {:induction false} RemainingTrajectories(rows: seq<Row>, g: string, t: string, n: nat)
    requires n <= |rows|
    ensures TrajectorySet(GroupWithout(rows, g, t, n)) == (set x | x in Trajectories(rows, g, n)) - {t}
  {
    if n > 0 {
      RemainingTrajectories(rows, g, t, n - 1);
      TrajectorySetSnoc(GroupWithout(rows, g, t, n - 1), rows[n - 1]);
    }
  }

  lemma TrajectorySetSnoc(s: seq<Row>, x: Row)
    ensures TrajectorySet(s + [x]) == TrajectorySet(s) + {x.trajectory}
  {
    forall y | y in TrajectorySet(s) ensures y in TrajectorySet(s + [x]) {
      var i :| 0 <= i < |s| && s[i].trajectory == y;
      assert (s + [x])[i] == s[i];
    }
    assert (s + [x])[|s|] == x;
  }

  lemma TrajectorySetAppend(a: seq<Row>, b: seq<Row>)
    ensures TrajectorySet(a + b) == TrajectorySet(a) + TrajectorySet(b)
  {
    var s := a + b;
    forall y | y in TrajectorySet(a) ensures y in TrajectorySet(s) {
      var i :| 0 <= i < |a| && a[i].trajectory == y;
      assert s[i] == a[i];
    }
    forall y | y in TrajectorySet(b) ensures y in TrajectorySet(s) {
      var i :| 0 <= i < |b| && b[i].trajectory == y;
      assert s[|a| + i] == b[i];
    }
  }

  lemma {:induction false} ReplayFound(library: map<string, Episode>, prompts: seq<Prompt>, rs: seq<Replacement>, n: nat, k: nat)
    requires k < n <= |rs| && Known(library, rs) && Replays(library, prompts, rs, n).Ok?
    ensures |Replays(library, prompts, rs, n).value| == n && rs[k].task in library
    ensures PromptByPriority(prompts, rs[k].priority, |prompts|).Some?
    ensures var p := PromptByPriority(prompts, rs[k].priority, |prompts|).value;
      Replays(library, prompts, rs, n).value[k] == Materialize(library[rs[k].task], prompts[p], rs[k])
  {
    if n > 1 { ReplayFound(library, prompts, rs, n - 1, if k < n - 1 then k else 0); }
    assert rs[k].task in library;
  }

  /** Every replacement's prompt is found under the replaced rows' priority. */
  predicate SourcesRight(prompts: seq<Prompt>, rs: seq<Replacement>) {
    forall k {:trigger SourceRight(prompts, rs[k])} :: 0 <= k < |rs| ==> SourceRight(prompts, rs[k])
  }

  predicate SourceRight(prompts: seq<Prompt>, r: Replacement) {
    var p := PromptByPriority(prompts, r.priority, |prompts|);
    p.Some? && prompts[p.value].uid == r.uid
  }

  /** Prompts of equal priority are of one group. */
  predicate OneGroupPerPriority(prompts: seq<Prompt>) {
    forall i, j :: 0 <= i < |prompts| && 0 <= j < |prompts| && prompts[i].priority == prompts[j].priority ==>
      prompts[i].uid == prompts[j].uid
  }

  /** Every row was generated from one of the prompts. */
  predicate FromPrompts(rows: seq<Row>, prompts: seq<Prompt>) {
    forall i {:trigger rows[i]} :: 0 <= i < |rows| ==> Prompt(rows[i].priority, rows[i].uid) in prompts
  }

  lemma {:induction false} PromptIsFound(prompts: seq<Prompt>, n: nat, i: nat)
    requires i < n <= |prompts|
    ensures var p := PromptByPriority(prompts, prompts[i].priority, n);
      p.Some? && i <= p.value && prompts[p.value].priority == prompts[i].priority
  {
    if i < n - 1 && prompts[n - 1].priority != prompts[i].priority { PromptIsFound(prompts, n - 1, i); }
  }

  /** Each selected trajectory's prompt is found, in its own group. */
  lemma SourceIsRight(rows: seq<Row>, prompts: seq<Prompt>, size: int, eligible: set<string>, r: Replacement)
    requires FromPrompts(rows, prompts) && OneGroupPerPriority(prompts) && IsJudged(rows, size, eligible, r)
    ensures SourceRight(prompts, r)
    ensures prompts[PromptByPriority(prompts, r.priority, |prompts|).value] == Prompt(r.priority, r.uid)
  {
    TrajectoriesAreExact(rows, r.uid, |rows|);
    TrajectoryHasRows(rows, r.uid, r.trajectory);
    TrajectoryRowsAreExact(rows, r.uid, r.trajectory, |rows|);
    var row := rows[r.rows[0]];
    assert row.priority == r.priority && row.uid == r.uid;
    var j :| 0 <= j < |prompts| && prompts[j] == Prompt(row.priority, row.uid);
    PromptIsFound(prompts, |prompts|, j);
  }

  lemma {:induction false} ReplaysSucceed(library: map<string, Episode>, prompts: seq<Prompt>, rs: seq<Replacement>, n: nat)
    requires n <= |rs| && Known(library, rs) && SourcesRight(prompts, rs)
    ensures Replays(library, prompts, rs, n).Ok?
  {
    if n > 0 {
      ReplaysSucceed(library, prompts, rs, n - 1);
      assert SourceRight(prompts, rs[n - 1]) && rs[n - 1].task in library;
    }
  }

  /** For rows generated from prompts whose priority tells their group, replacing fails only where selecting does. */
  lemma ReplacedIffChosen(rows: seq<Row>, prompts: seq<Prompt>, size: int, library: map<string, Episode>)
    requires FromPrompts(rows, prompts) && OneGroupPerPriority(prompts)
    ensures Replaced(rows, prompts, size, library).Ok? <==> Chosen(rows, size, library).Ok?
    ensures Chosen(rows, size, library).Ok? ==> SourcesRight(prompts, Chosen(rows, size, library).value)
  {
    if Chosen(rows, size, library).Ok? {
      var rs := Chosen(rows, size, library).value;
      forall k | 0 <= k < |rs| ensures SourceRight(prompts, rs[k]) {
        assert IsJudged(rows, size, library.Keys, rs[k]);
        SourceIsRight(rows, prompts, size, library.Keys, rs[k]);
      }
      ReplaysSucceed(library, prompts, rs, |rs|);
    }
  }

  lemma ReplaysInTheirGroups(library: map<string, Episode>, prompts: seq<Prompt>, rs: seq<Replacement>)
    requires Known(library, rs) && Replays(library, prompts, rs, |rs|).Ok? && SourcesRight(prompts, rs)
    ensures InTheirGroups(rs, Replays(library, prompts, rs, |rs|).value)
  {
    var replays := Replays(library, prompts, rs, |rs|).value;
    forall k | 0 <= k < |rs| ensures |replays| == |rs| && AllOf(replays[k], rs[k].uid) {
      assert SourceRight(prompts, rs[k]);
      ReplayFound(library, prompts, rs, |rs|, k);
    }
  }

  /** Groups that were not selected keep their rows, in order. */
  lemma OtherGroupsUntouched(rows: seq<Row>, prompts: seq<Prompt>, size: int, library: map<string, Episode>, g: string)
    requires FromPrompts(rows, prompts) && OneGroupPerPriority(prompts) && Chosen(rows, size, library).Ok?
    requires forall k :: 0 <= k < |Chosen(rows, size, library).value| ==> Chosen(rows, size, library).value[k].uid != g
    ensures var after := Replaced(rows, prompts, size, library);
      after.Ok? && GroupRows(after.value, g) == GroupRows(rows, g)
  {
    ReplacedIffChosen(rows, prompts, size, library);
    var rs := Chosen(rows, size, library).value;
    var replays := Replays(library, prompts, rs, |rs|).value;
    var removed := RemovedRows(rs);
    forall i | 0 <= i < |rows| && rows[i].uid == g ensures i !in removed {
      RemovedIffTarget(rows, size, library.Keys, rs, Groups(rows, |rows|), i);
    }
    KeptOfOtherGroup(rows, removed, g, |rows|);
    ReplaysInTheirGroups(library, prompts, rs);
    JoinedGroups(Kept(rows, removed, |rows|), rs, replays, g, |replays|);
  }

  /** A selected group loses its last trajectory and gains one recorded success; its other rows stay, in order. */
  lemma SelectedGroupAfter(rows: seq<Row>, prompts: seq<Prompt>, size: int, library: map<string, Episode>, k: nat)
    requires FromPrompts(rows, prompts) && OneGroupPerPriority(prompts)
    requires Chosen(rows, size, library).Ok? && k < |Chosen(rows, size, library).value|
    ensures var (r, after) := (Chosen(rows, size, library).value[k], Replaced(rows, prompts, size, library));
      && after.Ok? && r.task in library
      && GroupRows(after.value, r.uid)
         == GroupWithout(rows, r.uid, r.trajectory, |rows|) + Materialize(library[r.task], Prompt(r.priority, r.uid), r)
  {
    ReplacedIffChosen(rows, prompts, size, library);
    var rs := Chosen(rows, size, library).value;
    var replays := Replays(library, prompts, rs, |rs|).value;
    var removed := RemovedRows(rs);
    forall i | 0 <= i < |rows| && rows[i].uid == rs[k].uid ensures i in removed <==> rows[i].trajectory == rs[k].trajectory {
      RemovedIffTarget(rows, size, library.Keys, rs, Groups(rows, |rows|), i);
    }
    KeptOfSelectedGroup(rows, removed, rs[k].uid, rs[k].trajectory, |rows|);
    ReplaysInTheirGroups(library, prompts, rs);
    JoinedGroups(Kept(rows, removed, |rows|), rs, replays, rs[k].uid, |replays|);
    ReplayFound(library, prompts, rs, |rs|, k);
    assert IsJudged(rows, size, library.Keys, rs[k]);
    SourceIsRight(rows, prompts, size, library.Keys, rs[k]);
  }

  lemma ReplayIsOneTrajectory(e: Episode, p: Prompt, r: Replacement)
    requires e.steps >= 1
    ensures TrajectorySet(Materialize(e, p, r)) == {ReplayUid(r.trajectory, e.id)}
  {
    assert Materialize(e, p, r)[0].trajectory == ReplayUid(r.trajectory, e.id);
  }

  /** The group still has its full number of trajectories exactly when the replay's name is new among those that stay. */
  lemma GroupSizeKeptIff(rows: seq<Row>, prompts: seq<Prompt>, size: int, library: map<string, Episode>, k: nat)
    requires FromPrompts(rows, prompts) && OneGroupPerPriority(prompts)
    requires Chosen(rows, size, library).Ok? && k < |Chosen(rows, size, library).value|
    requires var r := Chosen(rows, size, library).value[k]; r.task in library && library[r.task].steps >= 1
    ensures var (r, after) := (Chosen(rows, size, library).value[k], Replaced(rows, prompts, size, library));
      after.Ok? &&
      (|TrajectorySet(GroupRows(after.value, r.uid))| == size
       <==> ReplayUid(r.trajectory, library[r.task].id) !in TrajectorySet(GroupWithout(rows, r.uid, r.trajectory, |rows|)))
  {
    var r := Chosen(rows, size, library).value[k];
    SelectedGroupAfter(rows, prompts, size, library, k);
    var replay := Materialize(library[r.task], Prompt(r.priority, r.uid), r);
    ReplayIsOneTrajectory(library[r.task], Prompt(r.priority, r.uid), r);
    var stay := GroupWithout(rows, r.uid, r.trajectory, |rows|);
    TrajectorySetAppend(stay, replay);
    RemainingTrajectories(rows, r.uid, r.trajectory, |rows|);
    assert IsJudged(rows, size, library.Keys, r);
    JudgedGroupFailed(rows, size, library.Keys, r);
    TrajectoriesAreExact(rows, r.uid, |rows|);
    DistinctCounts(Trajectories(rows, r.uid, |rows|));
  }

  // ----- the replaced group has a success -----

  lemma {:induction false} InGroupMembers(s: seq<Row>, g: string, n: nat)
    requires n <= |s|
    ensures forall i :: 0 <= i < n && s[i].uid == g ==> s[i] in InGroup(s, g, n)
    ensures forall x :: x in InGroup(s, g, n) ==> exists i :: 0 <= i < n && s[i] == x && x.uid == g
  {
    if n > 0 { InGroupMembers(s, g, n - 1); }
  }

  /** The replay in a replaced group: one row per step of the recorded episode, all with the full reward. */
  lemma ReplayRows(rows: seq<Row>, prompts: seq<Prompt>, size: int, library: map<string, Episode>, k: nat)
    requires FromPrompts(rows, prompts) && OneGroupPerPriority(prompts)
    requires Chosen(rows, size, library).Ok? && k < |Chosen(rows, size, library).value|
    ensures var (r, after) := (Chosen(rows, size, library).value[k], Replaced(rows, prompts, size, library));
      && after.Ok? && r.task in library
      && var e := library[r.task];
         GroupRows(after.value, r.uid) == GroupWithout(rows, r.uid, r.trajectory, |rows|)
           + seq(e.steps, i requires 0 <= i < e.steps =>
               Row(r.uid, r.trajectory + ":success_replay:" + e.id, r.task, 1.0, r.priority, i))
  {
    SelectedGroupAfter(rows, prompts, size, library, k);
    var r := Chosen(rows, size, library).value[k];
    var e := library[r.task];
    var replay := Materialize(e, Prompt(r.priority, r.uid), r);
    var explicit := seq(e.steps, i requires 0 <= i < e.steps =>
      Row(r.uid, r.trajectory + ":success_replay:" + e.id, r.task, 1.0, r.priority, i));
    forall i | 0 <= i < e.steps ensures replay[i] == explicit[i] {
      assert replay[i].trajectory == ReplayUid(r.trajectory, e.id);
    }
    assert replay == explicit;
  }

  /** Provided its replay has steps and a new name, a replaced group has a success and is not replaced again. */
  lemma ReplacedGroupSucceeds(rows: seq<Row>, prompts: seq<Prompt>, size: int, library: map<string, Episode>, k: nat)
    requires FromPrompts(rows, prompts) && OneGroupPerPriority(prompts)
    requires Chosen(rows, size, library).Ok? && k < |Chosen(rows, size, library).value|
    requires var r := Chosen(rows, size, library).value[k];
      && r.task in library && library[r.task].steps >= 1
      && ReplayUid(r.trajectory, library[r.task].id) !in TrajectorySet(GroupWithout(rows, r.uid, r.trajectory, |rows|))
    ensures var (r, after) := (Chosen(rows, size, library).value[k], Replaced(rows, prompts, size, library));
      after.Ok? && !NoneSucceeds(after.value, r.uid)
  {
    SelectedGroupAfter(rows, prompts, size, library, k);
    var r, after := Chosen(rows, size, library).value[k], Replaced(rows, prompts, size, library).value;
    var stay, replay := GroupWithout(rows, r.uid, r.trajectory, |rows|), Materialize(library[r.task], Prompt(r.priority, r.uid), r);
    var name := ReplayUid(r.trajectory, library[r.task].id);
    InGroupMembers(after, r.uid, |after|);
    assert replay[0] == (stay + replay)[|stay|] && replay[0] in GroupRows(after, r.uid);
    var i :| 0 <= i < |after| && after[i] == replay[0] && after[i].uid == r.uid;
    assert forall m :: 0 <= m < |stay| ==> stay[m].trajectory in TrajectorySet(stay);
    assert forall x :: x in stay ==> x.trajectory != name;
    forall j | 0 <= j < |after| && after[j].uid == r.uid && after[j].trajectory == name ensures after[j].reward == 1.0 {
      assert after[j] in stay + replay;
    }
    var first := FirstOfTrajectory(after, i);
  }

  lemma FirstOfTrajectory(rows: seq<Row>, i: nat) returns (j: nat)
    requires i < |rows|
    ensures j <= i && rows[j].uid == rows[i].uid && rows[j].trajectory == rows[i].trajectory && Opens(rows, j)
  {
    j := i;
    if !Opens(rows, i) {
      var h :| 0 <= h < i && rows[h].uid == rows[i].uid && rows[h].trajectory == rows[i].trajectory;
      j := FirstOfTrajectory(rows, h);
    }
  }

  // ----- where it goes wrong -----

  /** One failed trajectory of one row, generated from `p`. */
  function Single(p: Prompt): seq<Row> { [Row(p.uid, "t", "task", 0.0, p.priority, 0)] }

  const LIBRARY: map<string, Episode> := map["task" := Episode("e", 1)]

  lemma {:induction false} OnlyGroupIsChosen(rows: seq<Row>, g: string, size: int, library: map<string, Episode>, r: Replacement)
    requires Groups(rows, |rows|) == [g] && Trajectories(rows, g, |rows|) != []
    requires Judge(rows, g, size, library.Keys) == Ok(Replace(r))
    ensures Chosen(rows, size, library) == Ok([r])
  {
    assert GroupAt(rows, 0) == g;
    assert Selected(rows, size, library.Keys, 0) == Ok(Selection([], 0, 0));
    assert [] + [r] == [r];
    assert Selected(rows, size, library.Keys, 1) == Ok(Selection([r], 1, 0));
  }

  lemma SingleIsChosen(p: Prompt)
    ensures Chosen(Single(p), 1, LIBRARY) == Ok([Replacement(p.uid, "task", "t", p.priority, [0])])
  {
    var rows := Single(p);
    assert Groups(rows, 1) == [p.uid] && Groups(rows, 0) == [];
    assert Trajectories(rows, p.uid, 0) == [] && Trajectories(rows, p.uid, 1) == ["t"];
    assert TrajectoryRows(rows, p.uid, "t", 0) == [] && TrajectoryRows(rows, p.uid, "t", 1) == [0];
    assert Consistent(rows, p.uid, "t") && !SomeSuccess(rows, p.uid) && OneTask(rows, p.uid);
    assert FirstInconsistent(rows, p.uid, 0) == None && FirstInconsistent(rows, p.uid, 1) == None;
    assert Judge(rows, p.uid, 1, LIBRARY.Keys) == Ok(Replace(Replacement(p.uid, "task", "t", p.priority, [0])));
    OnlyGroupIsChosen(rows, p.uid, 1, LIBRARY, Replacement(p.uid, "task", "t", p.priority, [0]));
  }

  /**
   * The table of priorities keeps the last prompt of each: if two prompts of equal priority are of different groups,
   * there is a batch of theirs whose replay lands in the other group, and its own group is gone.
   */
  lemma AmbiguousPriorityMisplaces(prompts: seq<Prompt>, i: nat, j: nat)
    requires i < |prompts| && j < |prompts| && prompts[i].priority == prompts[j].priority && prompts[i].uid != prompts[j].uid
    ensures exists p :: p in prompts && FromPrompts(Single(p), prompts) && Misplaced(prompts, p)
  {
    PromptIsFound(prompts, |prompts|, i);
    var last := prompts[PromptByPriority(prompts, prompts[i].priority, |prompts|).value];
    var p := if last.uid == prompts[i].uid then prompts[j] else prompts[i];
    var r := Replacement(p.uid, "task", "t", p.priority, [0]);
    SingleIsChosen(p);
    var replay := Materialize(LIBRARY["task"], last, r);
    assert ReplayFor(LIBRARY, prompts, r) == Ok(replay);
    OneReplay(LIBRARY, prompts, r);
    assert 0 in [r][0].rows;
    assert 0 in RemovedRows([r]);
    assert Kept(Single(p), RemovedRows([r]), 1) == [];
    assert Joined([], [replay], 1) == Joined([], [replay], 0) + replay == replay;
    WholeGroup(replay, last.uid, p.uid, 1);
    assert Misplaced(prompts, p);
  }

  lemma OneReplay(library: map<string, Episode>, prompts: seq<Prompt>, r: Replacement)
    requires r.task in library && ReplayFor(library, prompts, r).Ok?
    ensures Known(library, [r]) && Replays(library, prompts, [r], 1) == Ok([ReplayFor(library, prompts, r).value])
  {
    assert Known(library, [r]) && [r][0] == r;
    assert Replays(library, prompts, [r], 0) == Ok([]);
    assert [] + [ReplayFor(library, prompts, r).value] == [ReplayFor(library, prompts, r).value];
  }

  /** After the replacement, the failed trajectory's group is empty and the replay stands in another. */
  predicate Misplaced(prompts: seq<Prompt>, p: Prompt) {
    var after := Replaced(Single(p), prompts, 1, LIBRARY);
    after.Ok? && |after.value| == 1 && after.value[0].uid != p.uid && GroupRows(after.value, p.uid) == []
  }

  /** Every batch generated from these prompts keeps its replays in their groups exactly when priorities tell groups. */
  lemma ReplaysStayInGroupsIff(prompts: seq<Prompt>)
    ensures OneGroupPerPriority(prompts) <==>
      forall rows, size, library :: FromPrompts(rows, prompts) && Chosen(rows, size, library).Ok? ==>
        SourcesRight(prompts, Chosen(rows, size, library).value)
  {
    if OneGroupPerPriority(prompts) {
      forall rows, size, library | FromPrompts(rows, prompts) && Chosen(rows, size, library).Ok?
        ensures SourcesRight(prompts, Chosen(rows, size, library).value)
      {
        ReplacedIffChosen(rows, prompts, size, library);
      }
    } else {
      var i, j :| 0 <= i < |prompts| && 0 <= j < |prompts| && prompts[i].priority == prompts[j].priority && prompts[i].uid != prompts[j].uid;
      PromptIsFound(prompts, |prompts|, i);
      var last := prompts[PromptByPriority(prompts, prompts[i].priority, |prompts|).value];
      var p := if last.uid == prompts[i].uid then prompts[j] else prompts[i];
      SingleIsChosen(p);
      var rs := Chosen(Single(p), 1, LIBRARY).value;
      assert FromPrompts(Single(p), prompts) && !SourceRight(prompts, rs[0]);
    }
  }

  /** A trajectory already named like the replay of the group's last one: the two become one, and the group is short. */
  function Colliding(): seq<Row> {
    [Row("g", "t:success_replay:e", "task", 0.0, 0, 0), Row("g", "t", "task", 0.0, 0, 0)]
  }

  lemma CollidingIsChosen()
    ensures Chosen(Colliding(), 2, LIBRARY) == Ok([Replacement("g", "task", "t", 0, [1])])
  {
    var rows, first := Colliding(), "t:success_replay:e";
    assert |first| != |"t"|;
    assert Groups(rows, 0) == [] && Groups(rows, 1) == ["g"] && Groups(rows, 2) == ["g"];
    assert Trajectories(rows, "g", 0) == [] && Trajectories(rows, "g", 1) == [first] && Trajectories(rows, "g", 2) == [first, "t"];
    assert TrajectoryRows(rows, "g", "t", 0) == [] && TrajectoryRows(rows, "g", "t", 1) == [];
    assert TrajectoryRows(rows, "g", first, 0) == [] && TrajectoryRows(rows, "g", first, 1) == [0];
    assert TrajectoryRows(rows, "g", "t", 2) == [1] && TrajectoryRows(rows, "g", first, 2) == [0];
    assert FirstInconsistent(rows, "g", 0) == None && FirstInconsistent(rows, "g", 1) == None;
    assert FirstInconsistent(rows, "g", 2) == None && !SomeSuccess(rows, "g") && OneTask(rows, "g");
    assert Judge(rows, "g", 2, LIBRARY.Keys) == Ok(Replace(Replacement("g", "task", "t", 0, [1])));
    OnlyGroupIsChosen(rows, "g", 2, LIBRARY, Replacement("g", "task", "t", 0, [1]));
  }

  lemma CollidingStays()
    ensures ReplayUid("t", "e") in TrajectorySet(GroupWithout(Colliding(), "g", "t", 2))
  {
    var rows := Colliding();
    assert ReplayUid("t", "e") == "t:success_replay:e" == rows[0].trajectory;
    assert |rows[0].trajectory| != |"t"|;
    assert GroupWithout(rows, "g", "t", 0) == [] && GroupWithout(rows, "g", "t", 1) == [rows[0]];
    assert GroupWithout(rows, "g", "t", 2) == [rows[0]];
    assert GroupWithout(rows, "g", "t", 2)[0].trajectory == ReplayUid("t", "e");
  }

  lemma CollidingNameShrinksTheGroup()
    ensures var after := Replaced(Colliding(), [Prompt(0, "g")], 2, LIBRARY);
      after.Ok? && |TrajectorySet(GroupRows(after.value, "g"))| != 2
  {
    CollidingIsChosen();
    CollidingStays();
    var rows, prompts := Colliding(), [Prompt(0, "g")];
    assert forall i {:trigger rows[i]} :: 0 <= i < 2 ==> Prompt(rows[i].priority, rows[i].uid) == prompts[0];
    assert LIBRARY["task"] == Episode("e", 1);
    GroupSizeKeptIff(rows, prompts, 2, LIBRARY, 0);
  }
}
