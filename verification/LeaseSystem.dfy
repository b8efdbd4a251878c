/** Every interleaving of the asynchronous pool: threads wait, wake, time out; recoveries end whenever they like. */
module LeaseSystem {
  import opened Containers
  import opened AsyncPool

  type Thread = nat

  datatype Waiting = ForLease | ForInitialization(lease: Lease) | ForTeardown(lease: Lease)

  /** `waiting` holds the threads blocked on the condition; those also in `woken` have been notified. */
  datatype Sys = Sys(
    pool: PoolState,
    waiting: map<Thread, Waiting>,
    woken: set<Thread>,
    issued: set<Token>,
    returned: set<Token>)

  datatype Event =
    | AcquirePass(thread: Thread, token: Token)
    | InitializationPass(thread: Thread, lease: Lease)
    | TeardownPass(thread: Thread, lease: Lease)
    | Timeout(thread: Thread)
    | ReleaseBy(lease: Lease)
    | QuarantineBy(lease: Lease, reason: string)
    | EndInitializationBy(lease: Lease)
    | EndTeardownBy(lease: Lease)
    | RecoveryScheduled(endpoint: string)
    | RecoveryEnds(endpoint: string, failure: Option<string>)
    | OperatorRecover(endpoint: string, notified: Option<Thread>)

  predicate MayRun(s: Sys, thread: Thread, w: Waiting) {
    thread in s.waiting ==> thread in s.woken && s.waiting[thread] == w
  }

  /** Tokens are random and never repeat; a blocked thread runs only after it was notified. */
  predicate Enabled(s: Sys, e: Event) {
    match e
    case AcquirePass(thread, token) => token !in s.issued && MayRun(s, thread, ForLease)
    case InitializationPass(thread, lease) => MayRun(s, thread, ForInitialization(lease))
    case TeardownPass(thread, lease) => MayRun(s, thread, ForTeardown(lease))
    case Timeout(thread) => thread in s.waiting
    case OperatorRecover(endpoint, notified) =>
      if notified.Some? then notified.value in s.waiting && notified.value !in s.woken
      else s.waiting.Keys <= s.woken
    case _ => true
  }

  function Leave(s: Sys, thread: Thread): Sys {
    s.(waiting := s.waiting - {thread}, woken := s.woken - {thread})
  }

  function Block(s: Sys, thread: Thread, w: Waiting): Sys {
    s.(waiting := s.waiting[thread := w], woken := s.woken - {thread})
  }

  /** A pass of a wait loop: blocked threads wait again un-notified, the others are done with the condition. */
  function AfterPass(s: Sys, thread: Thread, w: Waiting, o: Outcome): Sys {
    var t := s.(pool := o.pool);
    if o.reply == Blocked then Block(t, thread, w)
    else if o.reply.Granted? then Leave(t, thread).(issued := s.issued + {o.reply.lease.token})
    else Leave(t, thread)
  }

  function AfterCall(s: Sys, o: Outcome): Sys {
    var t := s.(pool := o.pool);
    if o.wake == WakeAll then t.(woken := s.waiting.Keys) else t
  }

  function AfterGiveBack(s: Sys, lease: Lease, o: Outcome): Sys {
    var t := AfterCall(s, o);
    if o.reply == Done then t.(returned := s.returned + {lease.token}) else t
  }

  function Step(s: Sys, e: Event): Sys {
    match e
    case AcquirePass(thread, token) => AfterPass(s, thread, ForLease, s.pool.Acquire(token))
    case InitializationPass(thread, lease) =>
      AfterPass(s, thread, ForInitialization(lease), s.pool.BeginInitialization(lease))
    case TeardownPass(thread, lease) => AfterPass(s, thread, ForTeardown(lease), s.pool.BeginTeardown(lease))
    case Timeout(thread) => Leave(s, thread)
    case ReleaseBy(lease) => AfterGiveBack(s, lease, s.pool.Release(lease))
    case QuarantineBy(lease, reason) => AfterGiveBack(s, lease, s.pool.Quarantine(lease, reason))
    case EndInitializationBy(lease) => AfterCall(s, s.pool.EndInitialization(lease))
    case EndTeardownBy(lease) => AfterCall(s, s.pool.EndTeardown(lease))
    case RecoveryScheduled(endpoint) => AfterCall(s, s.pool.ScheduleRecovery(endpoint))
    case RecoveryEnds(endpoint, failure) => AfterCall(s, s.pool.EndRecovery(endpoint, failure))
    case OperatorRecover(endpoint, notified) =>
      var o := s.pool.Recover(endpoint);
      var t := s.(pool := o.pool);
      if o.wake == WakeOne && notified.Some? then t.(woken := s.woken + {notified.value}) else t
  }

  /** The states a run passes through. */
  ghost predicate Run(states: seq<Sys>, events: seq<Event>) {
    && |states| == |events| + 1
    && Initial(states[0])
    && forall i :: 0 <= i < |events| ==> Enabled(states[i], events[i]) && states[i + 1] == Step(states[i], events[i])
  }

  /** The pool as constructed, or after `start` restored a persisted quarantine. */
  predicate Initial(s: Sys) {
    && UniqueEndpoints(s.pool.containers)
    && (forall c :: c in s.pool.containers ==> c.token == None && c.state != Leased)
    && s.pool.initializing == s.pool.tearingDown == {}
    && s.waiting == map[] && s.woken == {} && s.issued == s.returned == {}
  }

  // ----- safety -----

  predicate Safe(s: Sys) {
    PoolSafe(s.pool, s.issued, s.returned) && s.woken <= s.waiting.Keys
  }

  lemma AcquireKeepsSafe(s: Sys, thread: Thread, token: Token)
    requires Safe(s) && token !in s.issued
    ensures Safe(Step(s, AcquirePass(thread, token)))
  {
    AcquireKeepsPoolSafe(s.pool, token, s.issued, s.returned);
  }

  /** Recoveries and the operator only touch containers nobody leases. */
  lemma RecoveryKeepsSafe(s: Sys, e: Event)
    requires Safe(s) && Enabled(s, e) && (e.RecoveryScheduled? || e.RecoveryEnds? || e.OperatorRecover?)
    ensures Safe(Step(s, e))
  {
    var cs := s.pool.containers;
    var i := Find(cs, e.endpoint);
    if i < |cs| && cs[i].state != Leased {
      IdleKeepsSound(cs, i, Step(s, e).pool.containers[i]);
      assert cs[i := cs[i]] == cs;
    }
  }

  lemma ReturnStepKeepsSafe(s: Sys, e: Event)
    requires Safe(s) && (e.ReleaseBy? || e.QuarantineBy?)
    ensures Safe(Step(s, e))
  {
    if e.QuarantineBy? {
      QuarantineReturns(s.pool, e.lease, e.reason, s.issued, s.returned);
    } else {
      ReleaseReturns(s.pool, e.lease, s.issued, s.returned);
    }
  }

  lemma InitializationStepKeepsSafe(s: Sys, thread: Thread, lease: Lease)
    requires Safe(s)
    ensures Safe(Step(s, InitializationPass(thread, lease)))
  {
    InitializationKeepsSafe(s.pool, lease, s.issued, s.returned);
  }

  lemma TeardownStepKeepsSafe(s: Sys, thread: Thread, lease: Lease)
    requires Safe(s)
    ensures Safe(Step(s, TeardownPass(thread, lease)))
  {
    TeardownKeepsSafe(s.pool, lease, s.issued, s.returned);
  }

  lemma InitializationEndKeepsSafe(s: Sys, lease: Lease)
    requires Safe(s)
    ensures Safe(Step(s, EndInitializationBy(lease)))
  {
    EndInitializationKeepsSafe(s.pool, lease, s.issued, s.returned);
  }

  lemma TeardownEndKeepsSafe(s: Sys, lease: Lease)
    requires Safe(s)
    ensures Safe(Step(s, EndTeardownBy(lease)))
  {
    EndTeardownKeepsSafe(s.pool, lease, s.issued, s.returned);
  }

  /** Every step of every thread, recovery and operator keeps the pool safe. */
  lemma StepKeepsSafe(s: Sys, e: Event)
    requires Safe(s) && Enabled(s, e)
    ensures Safe(Step(s, e))
  {
    match e {
      case AcquirePass(thread, token) => AcquireKeepsSafe(s, thread, token);
      case InitializationPass(thread, lease) => InitializationStepKeepsSafe(s, thread, lease);
      case TeardownPass(thread, lease) => TeardownStepKeepsSafe(s, thread, lease);
      case EndInitializationBy(lease) => InitializationEndKeepsSafe(s, lease);
      case EndTeardownBy(lease) => TeardownEndKeepsSafe(s, lease);
      case ReleaseBy(_) => ReturnStepKeepsSafe(s, e);
      case QuarantineBy(_, _) => ReturnStepKeepsSafe(s, e);
      case RecoveryScheduled(_) => RecoveryKeepsSafe(s, e);
      case RecoveryEnds(_, _) => RecoveryKeepsSafe(s, e);
      case OperatorRecover(_, _) => RecoveryKeepsSafe(s, e);
      case Timeout(_) =>
    }
  }

  /** Safety in every reachable interleaving, operator calls and late recoveries included. */
  lemma {:induction false} EveryRunIsSafe(states: seq<Sys>, events: seq<Event>, k: nat)
    requires Run(states, events) && k < |states|
    ensures Safe(states[k])
  {
    if k == 0 {
      FreshIsSound(states[0].pool.containers);
    } else {
      EveryRunIsSafe(states, events, k - 1);
      assert Enabled(states[k - 1], events[k - 1]);
      StepKeepsSafe(states[k - 1], events[k - 1]);
    }
  }

  lemma StepsOnlyAdd(s: Sys, e: Event)
    ensures s.returned <= Step(s, e).returned
  {
  }

  lemma {:induction false} ReturnedOnlyGrows(states: seq<Sys>, events: seq<Event>, j: nat, k: nat)
    requires Run(states, events) && j <= k < |states|
    ensures states[j].returned <= states[k].returned
  {
    if j < k {
      ReturnedOnlyGrows(states, events, j, k - 1);
      StepsOnlyAdd(states[k - 1], events[k - 1]);
    }
  }

  /** A lease given back once is refused for ever after, whatever happens to its container. */
  lemma ReturnedLeaseIsNeverAccepted(states: seq<Sys>, events: seq<Event>, j: nat, k: nat, lease: Lease)
    requires Run(states, events) && j <= k < |states| && lease.token in states[j].returned
    ensures Holder(states[k].pool.containers, lease) == |states[k].pool.containers|
    ensures states[k].pool.Release(lease).reply == StaleLease
    ensures forall reason :: states[k].pool.Quarantine(lease, reason).reply == StaleLease
    ensures states[k].pool.BeginInitialization(lease).reply == StaleLease
    ensures states[k].pool.BeginTeardown(lease).reply == StaleLease
  {
    EveryRunIsSafe(states, events, k);
    ReturnedOnlyGrows(states, events, j, k);
    HolderIsLive(states[k].pool.containers, lease);
  }

  // ----- no lost wakeups -----

  /** Nothing an un-notified waiter could do: a lease waiter could neither be served nor fail, a slot is not free. */
  predicate Idle(p: PoolState, w: Waiting) {
    match w
    case ForLease => !Grantable(p.containers) && !OutOfCapacity(p.containers)
    case ForInitialization(lease) =>
      Holder(p.containers, lease) < |p.containers| && |p.initializing| >= p.initializationSlots
    case ForTeardown(lease) =>
      Holder(p.containers, lease) < |p.containers| && |p.tearingDown| >= p.teardownSlots
  }

  predicate NoLostWakeup(s: Sys) {
    forall t :: t in s.waiting && t !in s.woken ==> Idle(s.pool, s.waiting[t])
  }

  /** Granting a lease can neither serve nor fail a lease waiter that had nothing to do. */
  lemma GrantKeepsIdle(p: PoolState, token: Token, w: Waiting)
    requires Sound(p.containers) && token !in Live(p.containers) && Idle(p, w)
    ensures Idle(p.Acquire(token).pool, w)
  {
    var cs := p.containers;
    AcquireIsWorkConserving(cs);
    if Decide(cs).Grant? {
      var i := Decide(cs).index;
      var ds := LeaseOut(cs, i, token);
      if w != ForLease {
        var k := Holder(cs, w.lease);
        assert k != i;
        LeaseOutKeepsSound(cs, i, token);
        assert ds[k] == cs[k];
      }
    }
  }

  lemma InitializationKeepsIdle(p: PoolState, lease: Lease, w: Waiting)
    requires Idle(p, w)
    ensures Idle(p.BeginInitialization(lease).pool, w)
  {
    SubsetSize(p.initializing, p.initializing + {lease.token});
  }

  lemma TeardownKeepsIdle(p: PoolState, lease: Lease, w: Waiting)
    requires Idle(p, w)
    ensures Idle(p.BeginTeardown(lease).pool, w)
  {
    SubsetSize(p.tearingDown, p.tearingDown + {lease.token});
  }

  /** Passes only take slots, so an un-notified slot waiter still finds them all taken. */
  lemma PassKeepsIdle(s: Sys, e: Event, w: Waiting)
    requires Safe(s) && Enabled(s, e) && Idle(s.pool, w)
    requires e.AcquirePass? || e.InitializationPass? || e.TeardownPass?
    ensures Idle(Step(s, e).pool, w)
  {
    PassPool(s, e);
    match e {
      case AcquirePass(thread, token) => GrantKeepsIdle(s.pool, token, w);
      case InitializationPass(thread, lease) => InitializationKeepsIdle(s.pool, lease, w);
      case TeardownPass(thread, lease) => TeardownKeepsIdle(s.pool, lease, w);
    }
  }

  lemma PassPool(s: Sys, e: Event)
    ensures e.AcquirePass? ==> Step(s, e).pool == s.pool.Acquire(e.token).pool
    ensures e.InitializationPass? ==> Step(s, e).pool == s.pool.BeginInitialization(e.lease).pool
    ensures e.TeardownPass? ==> Step(s, e).pool == s.pool.BeginTeardown(e.lease).pool
  {
  }

  /** A pass that blocks had nothing to do. */
  lemma BlockedMeansIdle(s: Sys, e: Event)
    requires Safe(s)
    ensures e.AcquirePass? && s.pool.Acquire(e.token).reply == Blocked ==> Idle(s.pool, ForLease)
    ensures e.InitializationPass? && s.pool.BeginInitialization(e.lease).reply == Blocked ==>
              Idle(s.pool, ForInitialization(e.lease))
    ensures e.TeardownPass? && s.pool.BeginTeardown(e.lease).reply == Blocked ==> Idle(s.pool, ForTeardown(e.lease))
  {
    AcquireIsWorkConserving(s.pool.containers);
  }

  /** Every step except the operator's keeps wakeups. */
  lemma StepKeepsWakeups(s: Sys, e: Event)
    requires Safe(s) && NoLostWakeup(s) && Enabled(s, e) && !e.OperatorRecover?
    ensures NoLostWakeup(Step(s, e))
  {
    if e.AcquirePass? || e.InitializationPass? || e.TeardownPass? {
      PassKeepsWakeups(s, e);
    } else {
      OtherStepsKeepWakeups(s, e);
    }
  }

  lemma PassKeepsWakeups(s: Sys, e: Event)
    requires Safe(s) && NoLostWakeup(s) && Enabled(s, e)
    requires e.AcquirePass? || e.InitializationPass? || e.TeardownPass?
    ensures NoLostWakeup(Step(s, e))
  {
    var u := Step(s, e);
    BlockedMeansIdle(s, e);
    forall t | t in u.waiting && t !in u.woken ensures Idle(u.pool, u.waiting[t]) {
      if t != e.thread { PassKeepsIdle(s, e, s.waiting[t]); }
    }
  }

  /** Other steps leave the pool as it was, or wake everyone. */
  lemma OtherStepsKeepWakeups(s: Sys, e: Event)
    requires NoLostWakeup(s) && Enabled(s, e) && !e.OperatorRecover?
    requires !(e.AcquirePass? || e.InitializationPass? || e.TeardownPass?)
    ensures NoLostWakeup(Step(s, e))
  {
    var u := Step(s, e);
    forall t | t in u.waiting && t !in u.woken ensures Idle(u.pool, u.waiting[t]) {
      assert u.pool.(recoveryTasks := {}) == s.pool.(recoveryTasks := {});
    }
  }

  /** In every run without operator calls no waiter sleeps while it could be served or should fail. */
  lemma {:induction false} NoRunLosesWakeups(states: seq<Sys>, events: seq<Event>, k: nat)
    requires Run(states, events) && k < |states|
    requires forall i :: 0 <= i < |events| ==> !events[i].OperatorRecover?
    ensures NoLostWakeup(states[k])
  {
    if k > 0 {
      NoRunLosesWakeups(states, events, k - 1);
      EveryRunIsSafe(states, events, k - 1);
      assert Enabled(states[k - 1], events[k - 1]);
      StepKeepsWakeups(states[k - 1], events[k - 1]);
    }
  }

  // ----- the operator's single wakeup -----

  /** A lease waiter who has no wakeup, and does not get this one. */
  predicate OtherLeaseWaiter(s: Sys, notified: Option<Thread>) {
    exists t :: t in s.waiting && t !in s.woken && s.waiting[t] == ForLease && notified != Some(t)
  }

  /** Bringing container `i` back lets no lease waiter through, and makes none fail; by the counts beforehand. */
  predicate StaysQuiet(cs: seq<Container>, i: nat)
    requires i < |cs|
  {
    || cs[i].state == Available
    || (Serviceable(cs) + 1 >= Capacity(cs) && LeasedTotal(cs) >= Capacity(cs))
    || (Serviceable(cs) + 1 < Capacity(cs) && RecoveringTotal(cs) > if cs[i].state == Recovering then 1 else 0)
  }

  lemma QuietIff(p: PoolState, i: nat, c: Container)
    requires Sound(p.containers) && i < |p.containers| && p.containers[i].state != Leased && Idle(p, ForLease)
    requires c == p.containers[i].(state := Available, lastError := None)
    ensures Idle(p.(containers := p.containers[i := c]), ForLease) <==> StaysQuiet(p.containers, i)
  {
    CountsAfterUpdate(p.containers, i, c);
    TallyPositive(p.containers, ROLES, {Recovering});
    assert p.containers[i].state == Recovering ==> Matches(p.containers[i], ROLES, {Recovering});
  }

  /** Slot waiters wait on, whatever comes back. */
  lemma SlotWaitersUntouched(p: PoolState, i: nat, c: Container, w: Waiting)
    requires UniqueEndpoints(p.containers) && i < |p.containers| && p.containers[i].state != Leased && w != ForLease && Idle(p, w)
    requires c.endpoint == p.containers[i].endpoint && c.state != Leased
    ensures Idle(p.(containers := p.containers[i := c]), w)
  {
    HolderSurvives(p.containers, i, c, w.lease);
  }

  /**
   * The operator's `recover` wakes one waiter of any kind. No wakeup is lost exactly when the container's return
   * changes nothing for lease waiters, or no other lease waiter is left without a wakeup.
   */
  lemma RecoverKeepsWakeupsIff(s: Sys, endpoint: string, notified: Option<Thread>)
    requires Safe(s) && NoLostWakeup(s) && Enabled(s, OperatorRecover(endpoint, notified))
    requires Find(s.pool.containers, endpoint) < |s.pool.containers|
    requires s.pool.containers[Find(s.pool.containers, endpoint)].state != Leased
    ensures NoLostWakeup(Step(s, OperatorRecover(endpoint, notified)))
       <==> StaysQuiet(s.pool.containers, Find(s.pool.containers, endpoint)) || !OtherLeaseWaiter(s, notified)
  {
    var u := Step(s, OperatorRecover(endpoint, notified));
    var i := Find(s.pool.containers, endpoint);
    var c := s.pool.containers[i].(state := Available, lastError := None);
    assert u.pool == s.pool.(containers := s.pool.containers[i := c]);
    forall t | t in u.waiting && t !in u.woken
      ensures Idle(u.pool, u.waiting[t]) <==> u.waiting[t] != ForLease || StaysQuiet(s.pool.containers, i)
    {
      if s.waiting[t] == ForLease { QuietIff(s.pool, i, c); } else { SlotWaitersUntouched(s.pool, i, c, s.waiting[t]); }
    }
    if OtherLeaseWaiter(s, notified) {
      var t :| t in s.waiting && t !in s.woken && s.waiting[t] == ForLease && notified != Some(t);
      assert t in u.waiting && t !in u.woken;
    }
  }

  /** Three active containers, the outer two leased, as the counts see them. */
  lemma TripleCounts(a: Container, b: Container, c: Container)
    requires a.role == b.role == c.role == Active && a.state == c.state == Leased
    ensures Capacity([a, b, c]) == 3 && LeasedTotal([a, b, c]) == 2 + (if b.state == Leased then 1 else 0)
    ensures Serviceable([a, b, c]) == 2 + (if b.state in IN_SERVICE then 1 else 0)
    ensures RecoveringTotal([a, b, c]) == if b.state == Recovering then 1 else 0
  {
    EveryState(b.state);
    EveryState(Leased);
    forall roles, states ensures Tally([a, b, c], roles, states)
      == (if Matches(a, roles, states) then 1 else 0) + (if Matches(b, roles, states) then 1 else 0)
         + (if Matches(c, roles, states) then 1 else 0)
    {
      assert [a, b, c][1..] == [b, c] && [b, c][1..] == [c] && [c][1..] == [];
      assert Tally([c], roles, states) == if Matches(c, roles, states) then 1 else 0;
      assert Tally([b, c], roles, states) == (if Matches(b, roles, states) then 1 else 0) + Tally([c], roles, states);
    }
  }

  /** Thread 1 waits for a teardown slot that another lease has, thread 2 for a lease; container "b" is `b`. */
  function Contested(b: Container): Sys {
    var a := NewContainer("a", Active).(state := Leased, token := Some(7));
    var c := NewContainer("c", Active).(state := Leased, token := Some(8));
    Sys(PoolState([a, b, c], {}, {8}, {}, 1, 1), map[1 := ForTeardown(Lease("a", 7, Active)), 2 := ForLease], {}, {7, 8}, {})
  }

  lemma ContestedFacts(b: Container)
    requires b.endpoint == "b" && b.role == Active && b.token == None && b.state != Leased
    ensures var p := Contested(b).pool;
      && Sound(p.containers) && Live(p.containers) == {7, 8}
      && Holder(p.containers, Lease("a", 7, Active)) == 0 && Find(p.containers, "b") == 1
      && Capacity(p.containers) == 3 && LeasedTotal(p.containers) == 2
      && Serviceable(p.containers) == (if b.state in IN_SERVICE then 3 else 2)
      && RecoveringTotal(p.containers) == if b.state == Recovering then 1 else 0
  {
    var cs := Contested(b).pool.containers;
    TripleCounts(cs[0], b, cs[2]);
    FindIs(cs, "b", 1);
    FindIs(cs, "a", 0);
    assert cs[0].token == Some(7) && cs[2].token == Some(8);
    assert 7 in Live(cs) && 8 in Live(cs);
  }

  /**
   * A slot waiter can absorb the wakeup: the operator's call wakes thread 1, which waits again for its slot, and
   * thread 2 waits on although a lease could be granted.
   */
  lemma SlotWaiterAbsorbsTheWakeup()
    ensures var s := Contested(NewContainer("b", Active).(state := Recovering));
      var e, f := OperatorRecover("b", Some(1)), TeardownPass(1, Lease("a", 7, Active));
      && Safe(s) && NoLostWakeup(s) && Enabled(s, e) && Enabled(Step(s, e), f)
      && Step(Step(s, e), f) == Contested(NewContainer("b", Active))
      && Grantable(Contested(NewContainer("b", Active)).pool.containers)
  {
    var back := NewContainer("b", Active);
    ContestedFacts(back);
    ContestedIsSafe();
    OperatorBringsBack();
    ThreadOneWaitsAgain(back);
  }

  lemma ContestedIsSafe()
    ensures var s := Contested(NewContainer("b", Active).(state := Recovering)); Safe(s) && NoLostWakeup(s)
  {
    ContestedFacts(NewContainer("b", Active).(state := Recovering));
  }

  lemma OperatorBringsBack()
    ensures Step(Contested(NewContainer("b", Active).(state := Recovering)), OperatorRecover("b", Some(1)))
         == Contested(NewContainer("b", Active)).(woken := {1})
  {
    var b, back := NewContainer("b", Active).(state := Recovering), NewContainer("b", Active);
    ContestedFacts(b);
    assert Contested(b).pool.containers[1 := back] == Contested(back).pool.containers;
  }

  lemma ThreadOneWaitsAgain(b: Container)
    requires b.endpoint == "b" && b.role == Active && b.token == None && b.state != Leased
    ensures Step(Contested(b).(woken := {1}), TeardownPass(1, Lease("a", 7, Active))) == Contested(b)
  {
    ContestedFacts(b);
    assert Contested(b).waiting[1 := ForTeardown(Lease("a", 7, Active))] == Contested(b).waiting;
  }
}
