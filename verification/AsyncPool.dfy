/** The asynchronous leasing pool: one critical section per operation, and the class that runs them in place. */
module AsyncPool {
  import opened Containers

  datatype PoolState = PoolState(
    containers: seq<Container>,
    initializing: set<Token>,
    tearingDown: set<Token>,
    recoveryTasks: set<string>,
    initializationSlots: nat,
    teardownSlots: nat)
  {
    function Acquire(token: Token): Outcome {
      match Decide(containers)
      case NoCapacity => Outcome(this, NoHealthyCapacity, WakeNone)
      case Wait => Outcome(this, Blocked, WakeNone)
      case Grant(i) =>
        var c := containers[i];
        Outcome(this.(containers := LeaseOut(containers, i, token)), Granted(Lease(c.endpoint, token, c.role)), WakeNone)
    }

    /** What giving a lease back does: the slots go, the container takes its new face, everybody wakes. */
    function GiveBack(lease: Lease, c: Container): Outcome {
      var i := Holder(containers, lease);
      if i == |containers| then Outcome(this, StaleLease, WakeNone)
      else
        Outcome(this.(containers := containers[i := c],
                   initializing := initializing - {lease.token},
                   tearingDown := tearingDown - {lease.token}), Done, WakeAll)
    }

    function Release(lease: Lease): Outcome {
      var i := Holder(containers, lease);
      if i == |containers| then Outcome(this, StaleLease, WakeNone)
      else GiveBack(lease, SetState(containers[i], Available))
    }

    function Quarantine(lease: Lease, reason: string): Outcome {
      var i := Holder(containers, lease);
      if i == |containers| then Outcome(this, StaleLease, WakeNone)
      else
        var c := containers[i];
        GiveBack(lease, SetState(c, Quarantined).(failures := c.failures + 1, lastError := Some(reason)))
    }

    function BeginInitialization(lease: Lease): Outcome {
      if Holder(containers, lease) == |containers| then Outcome(this, StaleLease, WakeNone)
      else if |initializing| >= initializationSlots then Outcome(this, Blocked, WakeNone)
      else Outcome(this.(initializing := initializing + {lease.token}), Done, WakeNone)
    }

    function EndInitialization(lease: Lease): Outcome {
      if Holder(containers, lease) == |containers| then Outcome(this, StaleLease, WakeNone)
      else if lease.token !in initializing then Outcome(this, NotSlotOwner, WakeNone)
      else Outcome(this.(initializing := initializing - {lease.token}), Done, WakeAll)
    }

    function BeginTeardown(lease: Lease): Outcome {
      if Holder(containers, lease) == |containers| then Outcome(this, StaleLease, WakeNone)
      else if |tearingDown| >= teardownSlots then Outcome(this, Blocked, WakeNone)
      else Outcome(this.(tearingDown := tearingDown + {lease.token}), Done, WakeNone)
    }

    function EndTeardown(lease: Lease): Outcome {
      if Holder(containers, lease) == |containers| then Outcome(this, StaleLease, WakeNone)
      else if lease.token !in tearingDown then Outcome(this, NotSlotOwner, WakeNone)
      else Outcome(this.(tearingDown := tearingDown - {lease.token}), Done, WakeAll)
    }

    /** The operator's call: available without a probe, and one waiter woken. */
    function Recover(endpoint: string): Outcome {
      var i := Find(containers, endpoint);
      if i == |containers| then Outcome(this, UnknownEndpoint, WakeNone)
      else
        var c := containers[i];
        if c.state == Leased then Outcome(this, LeasedContainer, WakeNone)
        else Outcome(this.(containers := containers[i := c.(state := Available, lastError := None)]), Done, WakeOne)
    }

    function ScheduleRecovery(endpoint: string): Outcome {
      var i := Find(containers, endpoint);
      if endpoint in recoveryTasks then Outcome(this, Done, WakeNone)
      else if i == |containers| then Outcome(this, UnknownEndpoint, WakeNone)
      else
        var c := containers[i];
        if c.state == Leased then Outcome(this, LeasedContainer, WakeNone)
        else
          Outcome(this.(containers := containers[i := c.(state := Recovering)],
                     recoveryTasks := recoveryTasks + {endpoint}), Done, WakeAll)
    }

    /** The end of a background recovery, with the failure when there was one. */
    function EndRecovery(endpoint: string, failure: Option<string>): Outcome {
      var i := Find(containers, endpoint);
      var q := this.(recoveryTasks := recoveryTasks - {endpoint});
      if i == |containers| then Outcome(q, UnknownEndpoint, WakeNone)
      else if containers[i].state != Recovering then Outcome(q, Done, WakeNone)
      else
        var c := containers[i];
        Outcome(q.(containers := containers[i :=
                     if failure.Some? then c.(state := Quarantined, lastError := Some("recovery failed: " + failure.value))
                     else c.(state := Available, lastError := None)]), Done, WakeAll)
    }
  }

  datatype Reply =
    | Granted(lease: Lease)
    | Done
    | Blocked
    | NoHealthyCapacity
    | StaleLease
    | NotSlotOwner
    | LeasedContainer
    | UnknownEndpoint

  datatype Outcome = Outcome(pool: PoolState, reply: Reply, wake: Wake)

  // ----- what every step keeps, and means -----

  /** Slots are held by live leases only and never over their bound; returned tokens are dead. */
  predicate PoolSafe(p: PoolState, issued: set<Token>, returned: set<Token>) {
    && Sound(p.containers)
    && Live(p.containers) <= issued
    && returned <= issued - Live(p.containers)
    && p.initializing <= Live(p.containers)
    && p.tearingDown <= Live(p.containers)
    && |p.initializing| <= p.initializationSlots
    && |p.tearingDown| <= p.teardownSlots
  }

  lemma SubsetSize<T>(a: set<T>, b: set<T>)
    requires a <= b
    ensures |a| <= |b|
  {
    assert b == a + (b - a);
  }

  /** A lease given back: its slots are free too, and nothing else of the pool has changed. */
  predicate Freed(p: PoolState, q: PoolState, lease: Lease, state: State) {
    && GivenBack(p.containers, q.containers, lease, state)
    && q == p.(containers := q.containers, initializing := p.initializing - {lease.token},
               tearingDown := p.tearingDown - {lease.token})
  }

  lemma GiveBackKeepsSafe(p: PoolState, lease: Lease, c: Container, issued: set<Token>, returned: set<Token>)
    requires PoolSafe(p, issued, returned) && Holder(p.containers, lease) < |p.containers|
    requires var was := p.containers[Holder(p.containers, lease)];
      c.endpoint == was.endpoint && c.role == was.role && c.state != Leased && c.token == None
    ensures PoolSafe(p.GiveBack(lease, c).pool, issued, returned + {lease.token})
    ensures Freed(p, p.GiveBack(lease, c).pool, lease, c.state)
  {
    GiveBackEndsLease(p.containers, lease, c);
    SubsetSize(p.initializing - {lease.token}, p.initializing);
    SubsetSize(p.tearingDown - {lease.token}, p.tearingDown);
  }

  lemma ReleaseKeepsSafe(p: PoolState, lease: Lease, issued: set<Token>, returned: set<Token>)
    requires PoolSafe(p, issued, returned) && Holder(p.containers, lease) < |p.containers|
    ensures PoolSafe(p.Release(lease).pool, issued, returned + {lease.token})
    ensures Freed(p, p.Release(lease).pool, lease, Available)
  {
    GiveBackKeepsSafe(p, lease, SetState(p.containers[Holder(p.containers, lease)], Available), issued, returned);
  }

  lemma QuarantineKeepsSafe(p: PoolState, lease: Lease, reason: string, issued: set<Token>, returned: set<Token>)
    requires PoolSafe(p, issued, returned) && Holder(p.containers, lease) < |p.containers|
    ensures PoolSafe(p.Quarantine(lease, reason).pool, issued, returned + {lease.token})
    ensures Freed(p, p.Quarantine(lease, reason).pool, lease, Quarantined)
  {
    QuarantineGivesBack(p, lease, reason);
    GiveBackKeepsSafe(p, lease, Suspect(p.containers[Holder(p.containers, lease)], reason), issued, returned);
  }

  /** A container set aside for a reason. */
  function Suspect(c: Container, reason: string): Container {
    SetState(c, Quarantined).(failures := c.failures + 1, lastError := Some(reason))
  }

  lemma QuarantineGivesBack(p: PoolState, lease: Lease, reason: string)
    requires Holder(p.containers, lease) < |p.containers|
    ensures p.Quarantine(lease, reason) == p.GiveBack(lease, Suspect(p.containers[Holder(p.containers, lease)], reason))
  {
  }

  /** What a give-back means: a live lease is over, any other is refused and changes nothing. */
  predicate Returns(p: PoolState, o: Outcome, lease: Lease, state: State, issued: set<Token>, returned: set<Token>) {
    if Accepts(p.containers, lease) then
      o.reply == Done && o.wake == WakeAll && Freed(p, o.pool, lease, state) && PoolSafe(o.pool, issued, returned + {lease.token})
    else o == Outcome(p, StaleLease, WakeNone)
  }

  lemma ReleaseReturns(p: PoolState, lease: Lease, issued: set<Token>, returned: set<Token>)
    requires PoolSafe(p, issued, returned)
    ensures Returns(p, p.Release(lease), lease, Available, issued, returned)
  {
    AcceptsIffHeld(p.containers, lease);
    if Holder(p.containers, lease) < |p.containers| { ReleaseKeepsSafe(p, lease, issued, returned); }
  }

  lemma QuarantineReturns(p: PoolState, lease: Lease, reason: string, issued: set<Token>, returned: set<Token>)
    requires PoolSafe(p, issued, returned)
    ensures Returns(p, p.Quarantine(lease, reason), lease, Quarantined, issued, returned)
    ensures Accepts(p.containers, lease) ==> Noted(p.containers, p.Quarantine(lease, reason).pool.containers, lease.endpoint, 1, Some(reason))
  {
    AcceptsIffHeld(p.containers, lease);
    if Holder(p.containers, lease) < |p.containers| {
      QuarantineKeepsSafe(p, lease, reason, issued, returned);
      assert forall j :: 0 <= j < |p.containers| && p.containers[j].endpoint == lease.endpoint ==> j == Holder(p.containers, lease);
    }
  }

  /** Granting, releasing and starting a recovery leave failure counts and errors alone. */
  lemma RecordsUntouched(p: PoolState, token: Token, lease: Lease, endpoint: string)
    ensures RecordsStand(p.containers, p.Acquire(token).pool.containers)
    ensures RecordsStand(p.containers, p.Release(lease).pool.containers)
    ensures RecordsStand(p.containers, p.ScheduleRecovery(endpoint).pool.containers)
  {
    ReleaseLeavesRecords(p, lease);
    RecoveryStartLeavesRecords(p, endpoint);
  }

  lemma ReleaseLeavesRecords(p: PoolState, lease: Lease)
    ensures RecordsStand(p.containers, p.Release(lease).pool.containers)
  {
  }

  lemma RecoveryStartLeavesRecords(p: PoolState, endpoint: string)
    ensures RecordsStand(p.containers, p.ScheduleRecovery(endpoint).pool.containers)
  {
  }

  /** A recovered container has no error on record. */
  lemma RecoverIsNoted(p: PoolState, endpoint: string)
    requires UniqueEndpoints(p.containers) && Known(p.containers, endpoint) && !InState(p.containers, endpoint, Leased)
    ensures Noted(p.containers, p.Recover(endpoint).pool.containers, endpoint, 0, None)
  {
    FindFindsKnown(p.containers, endpoint, Leased);
    var i := Find(p.containers, endpoint);
    NotedAt(p.containers, i, p.Recover(endpoint).pool.containers[i], 0);
  }

  /** A recovery that failed leaves its failure on record, one that succeeded none. */
  lemma RecoveryEndIsNoted(p: PoolState, endpoint: string, failure: Option<string>)
    requires UniqueEndpoints(p.containers) && InState(p.containers, endpoint, Recovering)
    ensures Noted(p.containers, p.EndRecovery(endpoint, failure).pool.containers, endpoint, 0,
              if failure.Some? then Some("recovery failed: " + failure.value) else None)
  {
    FindFindsKnown(p.containers, endpoint, Recovering);
    var i := Find(p.containers, endpoint);
    NotedAt(p.containers, i, p.EndRecovery(endpoint, failure).pool.containers[i], 0);
  }

  lemma InitializationKeepsSafe(p: PoolState, lease: Lease, issued: set<Token>, returned: set<Token>)
    requires PoolSafe(p, issued, returned)
    ensures PoolSafe(p.BeginInitialization(lease).pool, issued, returned)
  {
    HolderIsLive(p.containers, lease);
  }

  lemma TeardownKeepsSafe(p: PoolState, lease: Lease, issued: set<Token>, returned: set<Token>)
    requires PoolSafe(p, issued, returned)
    ensures PoolSafe(p.BeginTeardown(lease).pool, issued, returned)
  {
    HolderIsLive(p.containers, lease);
  }

  lemma EndInitializationKeepsSafe(p: PoolState, lease: Lease, issued: set<Token>, returned: set<Token>)
    requires PoolSafe(p, issued, returned)
    ensures PoolSafe(p.EndInitialization(lease).pool, issued, returned)
  {
    SubsetSize(p.initializing - {lease.token}, p.initializing);
  }

  lemma EndTeardownKeepsSafe(p: PoolState, lease: Lease, issued: set<Token>, returned: set<Token>)
    requires PoolSafe(p, issued, returned)
    ensures PoolSafe(p.EndTeardown(lease).pool, issued, returned)
  {
    SubsetSize(p.tearingDown - {lease.token}, p.tearingDown);
  }

  lemma AcquireKeepsPoolSafe(p: PoolState, token: Token, issued: set<Token>, returned: set<Token>)
    requires PoolSafe(p, issued, returned) && token !in issued
    ensures var o := p.Acquire(token);
      if o.reply.Granted? then
        && Grantable(p.containers) && o.reply.lease.token == token
        && LeasedOut(p.containers, o.pool.containers, o.reply.lease) && o.pool == p.(containers := o.pool.containers)
        && (o.reply.lease.role == Spare ==> NoActiveAvailable(p.containers))
        && PoolSafe(o.pool, issued + {token}, returned)
      else o.pool == p && o.reply == if OutOfCapacity(p.containers) then NoHealthyCapacity else Blocked
    ensures p.Acquire(token).reply.Granted? <==> Grantable(p.containers)
  {
    AcquireIsWorkConserving(p.containers);
    if Decide(p.containers).Grant? {
      GrantBeginsLease(p.containers, Decide(p.containers).index, token);
    }
  }

  predicate NoActiveAvailable(cs: seq<Container>) {
    forall i :: 0 <= i < |cs| && cs[i].role == Active ==> cs[i].state != Available
  }

  /** Only the container of one endpoint changed, which nobody leases. */
  predicate Restored(p: PoolState, q: PoolState, endpoint: string, state: State) {
    ChangedIdle(p.containers, q.containers, endpoint, state) && q == p.(containers := q.containers, recoveryTasks := q.recoveryTasks)
  }

  /** A container nobody leases changes, and not to leased: every lease and slot stands. */
  lemma IdleChangeKeepsSafe(p: PoolState, i: nat, c: Container, tasks: set<string>, issued: set<Token>, returned: set<Token>)
    requires PoolSafe(p, issued, returned) && i < |p.containers| && p.containers[i].state != Leased
    requires c.endpoint == p.containers[i].endpoint && c.role == p.containers[i].role && c.state != Leased && c.token == None
    ensures var q := p.(containers := p.containers[i := c], recoveryTasks := tasks);
      PoolSafe(q, issued, returned) && Restored(p, q, c.endpoint, c.state)
  {
    IdleChangeIsLocal(p.containers, i, c);
  }

  // ----- configuration -----

  /** Python's `s[:n]`. */
  function Cut<T>(s: seq<T>, n: int): seq<T> {
    if n >= |s| then s else if n >= 0 then s[..n] else if |s| + n >= 0 then s[..|s| + n] else []
  }

  function OrElse(o: Option<int>, default: int): int { if o.Some? then o.value else default }

  function Min(a: int, b: int): int { if a <= b then a else b }

  /** What the constructor accepts. */
  predicate ConfigurationOk(endpoints: seq<string>, active: int, spares: int,
    initialization: Option<int>, teardown: Option<int>, recovery: Option<int>)
  {
    && |endpoints| >= active + spares && RawDistinct(endpoints)
    && 1 <= OrElse(initialization, Min(4, active)) <= active
    && 1 <= OrElse(teardown, 1) <= active
    && 1 <= OrElse(recovery, Min(2, active)) <= active
  }

  /** Constructing a pool: rejected, or a pool of the first `active + spares` endpoints with nothing leased. */
  method NewPool(endpoints: seq<string>, active: int, spares: int,
    initialization: Option<int>, teardown: Option<int>, recovery: Option<int>) returns (pool: AsyncContainerPool?)
    ensures pool != null <==> ConfigurationOk(endpoints, active, spares, initialization, teardown, recovery)
    ensures pool != null ==> fresh(pool) && pool.Valid() && pool.issued == pool.returned == {}
    ensures pool != null ==> var kept := Cut(endpoints, active + spares);
      && pool.containers == Built(kept, active, |kept|) && Live(pool.containers) == {}
      && (|pool.containers| == |kept| <==> NormalizedDistinct(kept))
  {
    if |endpoints| < active + spares || !RawDistinct(endpoints) { return null; }
    var kept := Cut(endpoints, active + spares);
    var initializationSlots := OrElse(initialization, Min(4, active));
    if !(1 <= initializationSlots <= active) { return null; }
    var teardownSlots := OrElse(teardown, 1);
    if !(1 <= teardownSlots <= active) { return null; }
    if !(1 <= OrElse(recovery, Min(2, active)) <= active) { return null; }
    pool := new AsyncContainerPool(kept, active, initializationSlots, teardownSlots);
    BuiltShape(kept, active, |kept|);
    assert kept[..|kept|] == kept;
  }

  class AsyncContainerPool {
    const initializationSlots: nat
    const teardownSlots: nat
    var containers: seq<Container>
    var initializing: set<Token>
    var tearingDown: set<Token>
    var recoveryTasks: set<string>
    /** Every token ever handed out, and those given back. */
    ghost var issued: set<Token>
    ghost var returned: set<Token>

    ghost function State(): PoolState
      reads this
    {
      PoolState(containers, initializing, tearingDown, recoveryTasks, initializationSlots, teardownSlots)
    }

    ghost predicate Valid()
      reads this
    {
      PoolSafe(State(), issued, returned)
    }

    constructor (endpoints: seq<string>, active: nat, initializationSlots: nat, teardownSlots: nat)
      ensures Valid() && issued == returned == {}
      ensures State() == PoolState(Built(endpoints, active, |endpoints|), {}, {}, {}, initializationSlots, teardownSlots)
    {
      this.initializationSlots := initializationSlots;
      this.teardownSlots := teardownSlots;
      initializing, tearingDown, recoveryTasks := {}, {}, {};
      issued, returned := {}, {};
      containers := [];
      new;
      for index := 0 to |endpoints|
        invariant containers == Built(endpoints, active, index)
        invariant initializing == tearingDown == {} && recoveryTasks == {} && issued == returned == {}
      {
        containers := Put(containers, NewContainer(RStrip(endpoints[index]), if index < active then Active else Spare));
      }
      BuiltIsFresh(endpoints, active, |endpoints|);
      FreshIsSound(containers);
    }

    /** The inner loops of acquire: the first available container of a role. */
    method FindAvailable(role: Role) returns (found: nat)
      ensures found == FirstAvailable(containers, role)
    {
      found := 0;
      while found < |containers| && !(containers[found].role == role && containers[found].state == Available)
        invariant found <= |containers|
        invariant found + FirstAvailable(containers[found..], role) == FirstAvailable(containers, role)
      {
        assert containers[found..][1..] == containers[found + 1..];
        found := found + 1;
      }
    }

    /**
     * One pass of the acquire loop; `uuid` stands for the next random token. A lease is granted whenever enough
     * containers are in service and fewer than the active ones are leased; a spare only when no active one is free.
     */
    method AcquirePass(uuid: Token) returns (reply: Reply)
      requires Valid() && uuid !in issued
      modifies this
      ensures Valid() && returned == old(returned)
      ensures reply.Granted? <==> old(Grantable(containers))
      ensures reply == NoHealthyCapacity <==> old(OutOfCapacity(containers))
      ensures reply.Granted? ==>
        && reply.lease.token == uuid && issued == old(issued) + {uuid} && LeasedOut(old(containers), containers, reply.lease)
        && State() == old(State()).(containers := containers)
        && (reply.lease.role == Spare ==> old(NoActiveAvailable(containers)))
      ensures !reply.Granted? ==> State() == old(State()) && issued == old(issued) && reply in {NoHealthyCapacity, Blocked}
      ensures Outcome(State(), reply, WakeNone) == old(State()).Acquire(uuid)
    {
      AcquireKeepsPoolSafe(State(), uuid, issued, returned);
      reply := Search(uuid);
      if reply.Granted? { issued := issued + {uuid}; }
    }

    /** The counts and searches of one pass. */
    method Search(uuid: Token) returns (reply: Reply)
      modifies this`containers
      ensures Outcome(State(), reply, WakeNone) == old(State()).Acquire(uuid)
    {
      var serviceable, capacity := Serviceable(containers), Capacity(containers);
      if serviceable < capacity && RecoveringTotal(containers) == 0 {
        return NoHealthyCapacity;
      }
      var leased := LeasedTotal(containers);
      if serviceable >= capacity && leased < capacity {
        var i := FindAvailable(Active);
        if i < |containers| {
          reply := GrantAt(i, uuid);
          return;
        }
      }
      if serviceable >= capacity && leased < capacity && LeasedSpares(containers) < UnavailableActive(containers) {
        var i := FindAvailable(Spare);
        if i < |containers| {
          reply := GrantAt(i, uuid);
          return;
        }
      }
      reply := Blocked;
    }

    method GrantAt(i: nat, uuid: Token) returns (reply: Reply)
      requires i < |containers|
      modifies this`containers
      ensures State() == old(State()).(containers := LeaseOut(old(containers), i, uuid))
      ensures reply == Granted(Lease(old(containers)[i].endpoint, uuid, old(containers)[i].role))
    {
      var c := containers[i];
      containers := containers[i := c.(state := Leased, token := Some(uuid))];
      reply := Granted(Lease(c.endpoint, uuid, c.role));
    }

    /** A live lease is over and everybody wakes; any other is refused and changes nothing. */
    method Release(lease: Lease) returns (reply: Reply, wake: Wake)
      requires Valid()
      modifies this
      ensures Valid() && issued == old(issued)
      ensures reply == if old(Accepts(containers, lease)) then Done else StaleLease
      ensures reply == Done ==>
        Freed(old(State()), State(), lease, Available) && returned == old(returned) + {lease.token} && wake == WakeAll
      ensures reply == StaleLease ==> State() == old(State()) && returned == old(returned) && wake == WakeNone
      ensures Outcome(State(), reply, wake) == old(State()).Release(lease)
    {
      ReleaseReturns(State(), lease, issued, returned);
      var i := Holder(containers, lease);
      if i == |containers| { return StaleLease, WakeNone; }
      Vacate(i, containers[i].(state := Available, token := None));
      return Done, WakeAll;
    }

    /** The container's lease ends with its slots. */
    method Vacate(i: nat, c: Container)
      requires i < |containers| && containers[i].token.Some?
      modifies this
      ensures var token := old(containers)[i].token.value;
        && State() == old(State()).(containers := old(containers)[i := c], initializing := old(initializing) - {token},
                                    tearingDown := old(tearingDown) - {token})
        && returned == old(returned) + {token} && issued == old(issued)
    {
      var token := containers[i].token.value;
      initializing := initializing - {token};
      tearingDown := tearingDown - {token};
      containers := containers[i := c];
      returned := returned + {token};
    }

    /** The same with the container set aside, one more failure on its record, and the reason. */
    method Quarantine(lease: Lease, reason: string) returns (reply: Reply, wake: Wake)
      requires Valid()
      modifies this
      ensures Valid() && issued == old(issued)
      ensures reply == if old(Accepts(containers, lease)) then Done else StaleLease
      ensures reply == Done ==>
        Freed(old(State()), State(), lease, Quarantined) && returned == old(returned) + {lease.token} && wake == WakeAll
      ensures reply == Done ==> Noted(old(containers), containers, lease.endpoint, 1, Some(reason))
      ensures reply == StaleLease ==> State() == old(State()) && returned == old(returned) && wake == WakeNone
      ensures Outcome(State(), reply, wake) == old(State()).Quarantine(lease, reason)
    {
      ghost var before := State();
      var i := Holder(containers, lease);
      if i == |containers| {
        reply, wake := StaleLease, WakeNone;
      } else {
        var c := containers[i];
        Vacate(i, c.(state := Quarantined, token := None, failures := c.failures + 1, lastError := Some(reason)));
        reply, wake := Done, WakeAll;
      }
      assert Outcome(State(), reply, wake) == before.Quarantine(lease, reason);
      QuarantineReturns(before, lease, reason, issued, old(returned));
    }

    /** A live lease gets a slot while one is free and waits while none is. */
    method BeginInitializationPass(lease: Lease) returns (reply: Reply)
      requires Valid()
      modifies this`initializing
      ensures Valid()
      ensures reply == if !old(Accepts(containers, lease)) then StaleLease
                       else if old(|initializing|) == initializationSlots then Blocked else Done
      ensures initializing == if reply == Done then old(initializing) + {lease.token} else old(initializing)
      ensures Outcome(State(), reply, WakeNone) == old(State()).BeginInitialization(lease)
    {
      AcceptsIffHeld(containers, lease);
      InitializationKeepsSafe(State(), lease, issued, returned);
      var i := Holder(containers, lease);
      if i == |containers| { return StaleLease; }
      if |initializing| >= initializationSlots { return Blocked; }
      initializing := initializing + {containers[i].token.value};
      reply := Done;
    }

    /** Only a live lease that has a slot gives one back; then a slot is free and everybody wakes. */
    method EndInitialization(lease: Lease) returns (reply: Reply, wake: Wake)
      requires Valid()
      modifies this`initializing
      ensures Valid()
      ensures reply == if !old(Accepts(containers, lease)) then StaleLease
                       else if lease.token in old(initializing) then Done else NotSlotOwner
      ensures reply == Done ==>
        initializing == old(initializing) - {lease.token} && |initializing| < initializationSlots && wake == WakeAll
      ensures reply != Done ==> initializing == old(initializing) && wake == WakeNone
      ensures Outcome(State(), reply, wake) == old(State()).EndInitialization(lease)
    {
      AcceptsIffHeld(containers, lease);
      EndInitializationKeepsSafe(State(), lease, issued, returned);
      var i := Holder(containers, lease);
      if i == |containers| { return StaleLease, WakeNone; }
      var token := containers[i].token.value;
      if token !in initializing { return NotSlotOwner, WakeNone; }
      initializing := initializing - {token};
      return Done, WakeAll;
    }

    method BeginTeardownPass(lease: Lease) returns (reply: Reply)
      requires Valid()
      modifies this`tearingDown
      ensures Valid()
      ensures reply == if !old(Accepts(containers, lease)) then StaleLease
                       else if old(|tearingDown|) == teardownSlots then Blocked else Done
      ensures tearingDown == if reply == Done then old(tearingDown) + {lease.token} else old(tearingDown)
      ensures Outcome(State(), reply, WakeNone) == old(State()).BeginTeardown(lease)
    {
      AcceptsIffHeld(containers, lease);
      TeardownKeepsSafe(State(), lease, issued, returned);
      var i := Holder(containers, lease);
      if i == |containers| { return StaleLease; }
      if |tearingDown| >= teardownSlots { return Blocked; }
      tearingDown := tearingDown + {containers[i].token.value};
      reply := Done;
    }

    method EndTeardown(lease: Lease) returns (reply: Reply, wake: Wake)
      requires Valid()
      modifies this`tearingDown
      ensures Valid()
      ensures reply == if !old(Accepts(containers, lease)) then StaleLease
                       else if lease.token in old(tearingDown) then Done else NotSlotOwner
      ensures reply == Done ==>
        tearingDown == old(tearingDown) - {lease.token} && |tearingDown| < teardownSlots && wake == WakeAll
      ensures reply != Done ==> tearingDown == old(tearingDown) && wake == WakeNone
      ensures Outcome(State(), reply, wake) == old(State()).EndTeardown(lease)
    {
      AcceptsIffHeld(containers, lease);
      EndTeardownKeepsSafe(State(), lease, issued, returned);
      var i := Holder(containers, lease);
      if i == |containers| { return StaleLease, WakeNone; }
      var token := containers[i].token.value;
      if token !in tearingDown { return NotSlotOwner, WakeNone; }
      tearingDown := tearingDown - {token};
      return Done, WakeAll;
    }

    /** The operator makes a container available that nobody leases; leases and slots stand, and one waiter wakes. */
    method Recover(endpoint: string) returns (reply: Reply, wake: Wake)
      requires Valid()
      modifies this`containers
      ensures Valid()
      ensures reply == if !old(Known(containers, RStrip(endpoint))) then UnknownEndpoint
                       else if old(InState(containers, RStrip(endpoint), Leased)) then LeasedContainer else Done
      ensures reply == Done ==> Restored(old(State()), State(), RStrip(endpoint), Available) && wake == WakeOne
      ensures reply != Done ==> containers == old(containers) && wake == WakeNone
      ensures Outcome(State(), reply, wake) == old(State()).Recover(RStrip(endpoint))
    {
      FindFindsKnown(containers, RStrip(endpoint), Leased);
      var i := Find(containers, RStrip(endpoint));
      if i == |containers| { return UnknownEndpoint, WakeNone; }
      if containers[i].state == Leased { return LeasedContainer, WakeNone; }
      var c := containers[i].(state := Available, lastError := None);
      IdleChangeKeepsSafe(State(), i, c, recoveryTasks, issued, returned);
      containers := containers[i := c];
      return Done, WakeOne;
    }

    /** A recovery starts once: while one runs for the endpoint, nothing changes. */
    method ScheduleRecovery(endpoint: string) returns (reply: Reply, wake: Wake)
      requires Valid()
      modifies this`containers, this`recoveryTasks
      ensures Valid()
      ensures endpoint in old(recoveryTasks) ==> reply == Done && State() == old(State()) && wake == WakeNone
      ensures endpoint !in old(recoveryTasks) ==>
        reply == if !old(Known(containers, endpoint)) then UnknownEndpoint
                 else if old(InState(containers, endpoint, Leased)) then LeasedContainer else Done
      ensures endpoint !in old(recoveryTasks) && reply == Done ==>
        Restored(old(State()), State(), endpoint, Recovering) && recoveryTasks == old(recoveryTasks) + {endpoint} && wake == WakeAll
      ensures reply != Done ==> State() == old(State()) && wake == WakeNone
      ensures Outcome(State(), reply, wake) == old(State()).ScheduleRecovery(endpoint)
    {
      FindFindsKnown(containers, endpoint, Leased);
      if endpoint in recoveryTasks { return Done, WakeNone; }
      var i := Find(containers, endpoint);
      if i == |containers| { return UnknownEndpoint, WakeNone; }
      if containers[i].state == Leased { return LeasedContainer, WakeNone; }
      var c := containers[i].(state := Recovering);
      IdleChangeKeepsSafe(State(), i, c, recoveryTasks + {endpoint}, issued, returned);
      containers := containers[i := c];
      recoveryTasks := recoveryTasks + {endpoint};
      return Done, WakeAll;
    }

    /** A recovery that ends, however late, touches its container only if that is still recovering. */
    method EndRecovery(endpoint: string, failure: Option<string>) returns (reply: Reply, wake: Wake)
      requires Valid()
      modifies this`containers, this`recoveryTasks
      ensures Valid() && recoveryTasks == old(recoveryTasks) - {endpoint}
      ensures reply == if old(Known(containers, endpoint)) then Done else UnknownEndpoint
      ensures old(InState(containers, endpoint, Recovering)) ==>
        wake == WakeAll && Restored(old(State()), State(), endpoint, if failure == None then Available else Quarantined)
      ensures !old(InState(containers, endpoint, Recovering)) ==> containers == old(containers) && wake == WakeNone
      ensures Outcome(State(), reply, wake) == old(State()).EndRecovery(endpoint, failure)
    {
      FindFindsKnown(containers, endpoint, Recovering);
      ghost var before := State();
      recoveryTasks := recoveryTasks - {endpoint};
      var i := Find(containers, endpoint);
      if i == |containers| { return UnknownEndpoint, WakeNone; }
      if containers[i].state != Recovering { return Done, WakeNone; }
      var c := containers[i];
      if failure.Some? {
        c := c.(state := Quarantined, lastError := Some("recovery failed: " + failure.value));
      } else {
        c := c.(state := Available, lastError := None);
      }
      IdleChangeKeepsSafe(before, i, c, recoveryTasks, issued, returned);
      containers := containers[i := c];
      return Done, WakeAll;
    }
  }
}
