/** The threaded leasing pool, whose `release` wakes a single waiter, and the counting that makes that enough. */
module ThreadedPool {
  import opened Containers

  datatype Reply = Granted(lease: Lease) | Done | Blocked | NoHealthyCapacity | InvalidLease | LeasedContainer | UnknownEndpoint

  datatype Outcome = Outcome(containers: seq<Container>, reply: Reply, wake: Wake)

  function AfterAcquire(cs: seq<Container>, token: Token): Outcome {
    match Decide(cs)
    case NoCapacity => Outcome(cs, NoHealthyCapacity, WakeNone)
    case Wait => Outcome(cs, Blocked, WakeNone)
    case Grant(i) => Outcome(LeaseOut(cs, i, token), Granted(Lease(cs[i].endpoint, token, cs[i].role)), WakeNone)
  }

  function AfterRelease(cs: seq<Container>, lease: Lease): Outcome {
    var i := Holder(cs, lease);
    if i == |cs| then Outcome(cs, InvalidLease, WakeNone)
    else Outcome(cs[i := SetState(cs[i], Available)], Done, WakeOne)
  }

  function AfterQuarantine(cs: seq<Container>, lease: Lease, error: string): Outcome {
    var i := Holder(cs, lease);
    if i == |cs| then Outcome(cs, InvalidLease, WakeNone)
    else
      Outcome(cs[i := SetState(cs[i], Quarantined).(failures := cs[i].failures + 1, lastError := Some(error))],
              Done, WakeAll)
  }

  function AfterRecover(cs: seq<Container>, endpoint: string): Outcome {
    var i := Find(cs, endpoint);
    if i == |cs| then Outcome(cs, UnknownEndpoint, WakeNone)
    else if cs[i].state == Leased then Outcome(cs, LeasedContainer, WakeNone)
    else Outcome(cs[i := cs[i].(state := Available, lastError := None)], Done, WakeOne)
  }

  function AfterRetire(cs: seq<Container>, endpoint: string, reason: string): Outcome {
    var i := Find(cs, endpoint);
    if i == |cs| then Outcome(cs, UnknownEndpoint, WakeNone)
    else if cs[i].state == Leased then Outcome(cs, LeasedContainer, WakeNone)
    else Outcome(cs[i := cs[i].(state := Retired, lastError := Some(reason))], Done, WakeAll)
  }

  function AfterStartRecovery(cs: seq<Container>, endpoint: string): Outcome {
    var i := Find(cs, endpoint);
    if i == |cs| then Outcome(cs, UnknownEndpoint, WakeNone)
    else if cs[i].state == Recovering then Outcome(cs, Done, WakeNone)
    else if cs[i].state == Leased then Outcome(cs, LeasedContainer, WakeNone)
    else Outcome(cs[i := cs[i].(state := Recovering)], Done, WakeAll)
  }

  function AfterEndRecovery(cs: seq<Container>, endpoint: string, failure: Option<string>): Outcome {
    var i := Find(cs, endpoint);
    if i == |cs| then Outcome(cs, UnknownEndpoint, WakeNone)
    else if cs[i].state != Recovering then Outcome(cs, Done, WakeNone)
    else if failure.Some? then
      Outcome(cs[i := cs[i].(state := Quarantined, lastError := Some("recovery failed: " + failure.value))], Done, WakeAll)
    else Outcome(cs[i := cs[i].(state := Available, lastError := None)], Done, WakeAll)
  }

  /** The pool's books: containers sound, live tokens handed out, returned ones dead. */
  predicate Booked(cs: seq<Container>, issued: set<Token>, returned: set<Token>) {
    Sound(cs) && Live(cs) <= issued && returned <= issued - Live(cs)
  }

  /** What a give-back means: a live lease is over, any other is refused and changes nothing. */
  predicate Returns(cs: seq<Container>, o: Outcome, lease: Lease, state: State, wake: Wake, issued: set<Token>, returned: set<Token>) {
    if Accepts(cs, lease) then
      && o.reply == Done && o.wake == wake && GivenBack(cs, o.containers, lease, state)
      && Booked(o.containers, issued, returned + {lease.token})
    else o == Outcome(cs, InvalidLease, WakeNone)
  }

  lemma ReleaseReturns(cs: seq<Container>, lease: Lease, issued: set<Token>, returned: set<Token>)
    requires Booked(cs, issued, returned)
    ensures Returns(cs, AfterRelease(cs, lease), lease, Available, WakeOne, issued, returned)
  {
    AcceptsIffHeld(cs, lease);
    var i := Holder(cs, lease);
    if i < |cs| { GiveBackEndsLease(cs, lease, SetState(cs[i], Available)); }
  }

  lemma QuarantineReturns(cs: seq<Container>, lease: Lease, error: string, issued: set<Token>, returned: set<Token>)
    requires Booked(cs, issued, returned)
    ensures Returns(cs, AfterQuarantine(cs, lease, error), lease, Quarantined, WakeAll, issued, returned)
  {
    AcceptsIffHeld(cs, lease);
    var i := Holder(cs, lease);
    if i < |cs| {
      GiveBackEndsLease(cs, lease, SetState(cs[i], Quarantined).(failures := cs[i].failures + 1, lastError := Some(error)));
    }
  }

  lemma AcquireKeepsBooked(cs: seq<Container>, token: Token, issued: set<Token>, returned: set<Token>)
    requires Booked(cs, issued, returned) && token !in issued
    ensures var o := AfterAcquire(cs, token);
      if o.reply.Granted? then
        && Grantable(cs) && o.reply.lease.token == token && LeasedOut(cs, o.containers, o.reply.lease)
        && (o.reply.lease.role == Spare ==> !exists i :: 0 <= i < |cs| && cs[i].role == Active && cs[i].state == Available)
        && Booked(o.containers, issued + {token}, returned)
      else o.containers == cs && !Grantable(cs) && o.reply == if OutOfCapacity(cs) then NoHealthyCapacity else Blocked
  {
    AcquireIsWorkConserving(cs);
    if Decide(cs).Grant? { GrantBeginsLease(cs, Decide(cs).index, token); }
  }

  lemma IdleChangeKeepsBooked(cs: seq<Container>, i: nat, c: Container, issued: set<Token>, returned: set<Token>)
    requires Booked(cs, issued, returned) && i < |cs| && cs[i].state != Leased
    requires c.endpoint == cs[i].endpoint && c.role == cs[i].role && c.state != Leased && c.token == None
    ensures Booked(cs[i := c], issued, returned) && ChangedIdle(cs, cs[i := c], c.endpoint, c.state)
  {
    IdleChangeIsLocal(cs, i, c);
  }

  // ----- what is on record -----

  /** Granting, releasing and starting a recovery leave failure counts and errors alone. */
  lemma RecordsUntouched(cs: seq<Container>, token: Token, lease: Lease, endpoint: string)
    ensures RecordsStand(cs, AfterAcquire(cs, token).containers)
    ensures RecordsStand(cs, AfterRelease(cs, lease).containers)
    ensures RecordsStand(cs, AfterStartRecovery(cs, endpoint).containers)
  {
  }

  /** A quarantine counts one more failure and keeps its error. */
  lemma QuarantineIsNoted(cs: seq<Container>, lease: Lease, error: string)
    requires UniqueEndpoints(cs) && Accepts(cs, lease)
    ensures Noted(cs, AfterQuarantine(cs, lease, error).containers, lease.endpoint, 1, Some(error))
  {
    AcceptsIffHeld(cs, lease);
    var i := Holder(cs, lease);
    NotedAt(cs, i, AfterQuarantine(cs, lease, error).containers[i], 1);
  }

  /** A recovered container has no error on record; a retired one the reason. */
  lemma OperatorIsNoted(cs: seq<Container>, endpoint: string, reason: string)
    requires UniqueEndpoints(cs) && Known(cs, endpoint) && !InState(cs, endpoint, Leased)
    ensures Noted(cs, AfterRecover(cs, endpoint).containers, endpoint, 0, None)
    ensures Noted(cs, AfterRetire(cs, endpoint, reason).containers, endpoint, 0, Some(reason))
  {
    FindFindsKnown(cs, endpoint, Leased);
    var i := Find(cs, endpoint);
    NotedAt(cs, i, AfterRecover(cs, endpoint).containers[i], 0);
    NotedAt(cs, i, AfterRetire(cs, endpoint, reason).containers[i], 0);
  }

  /** A recovery that failed leaves its failure on record, one that succeeded none. */
  lemma RecoveryEndIsNoted(cs: seq<Container>, endpoint: string, failure: Option<string>)
    requires UniqueEndpoints(cs) && InState(cs, endpoint, Recovering)
    ensures Noted(cs, AfterEndRecovery(cs, endpoint, failure).containers, endpoint, 0,
              if failure.Some? then Some("recovery failed: " + failure.value) else None)
  {
    FindFindsKnown(cs, endpoint, Recovering);
    var i := Find(cs, endpoint);
    NotedAt(cs, i, AfterEndRecovery(cs, endpoint, failure).containers[i], 0);
  }

  /** Constructing a pool: rejected, or a pool of the first `active + spares` endpoints with nothing leased. */
  method NewPool(endpoints: seq<string>, active: int, spares: int) returns (pool: ContainerPool?)
    ensures pool != null <==> active > 0 && spares >= 0 && |endpoints| >= active + spares && RawDistinct(endpoints)
    ensures pool != null ==> fresh(pool) && pool.Valid() && pool.issued == pool.returned == {} && Live(pool.containers) == {}
    ensures pool != null ==> var kept := endpoints[..active + spares];
      && pool.containers == Built(kept, active, |kept|)
      && (|pool.containers| == active + spares <==> NormalizedDistinct(kept))
  {
    if active <= 0 || spares < 0 { return null; }
    if |endpoints| < active + spares || !RawDistinct(endpoints) { return null; }
    var kept := endpoints[..active + spares];
    pool := new ContainerPool(kept, active);
    BuiltShape(kept, active, |kept|);
    assert kept[..|kept|] == kept;
  }

  class ContainerPool {
    var containers: seq<Container>
    /** Every token ever handed out, and those given back. */
    ghost var issued: set<Token>
    ghost var returned: set<Token>

    ghost predicate Valid()
      reads this
    {
      Booked(containers, issued, returned)
    }

    constructor (endpoints: seq<string>, active: nat)
      ensures Valid() && issued == returned == {} && containers == Built(endpoints, active, |endpoints|) && Live(containers) == {}
    {
      issued, returned, containers := {}, {}, [];
      new;
      for i := 0 to |endpoints|
        invariant containers == Built(endpoints, active, i) && issued == returned == {}
      {
        containers := Put(containers, NewContainer(RStrip(endpoints[i]), if i < active then Active else Spare));
      }
      BuiltIsFresh(endpoints, active, |endpoints|);
      FreshIsSound(containers);
    }

    /** A lease is granted whenever enough containers are in service and fewer than the active ones are leased. */
    method AcquirePass(uuid: Token) returns (reply: Reply)
      requires Valid() && uuid !in issued
      modifies this
      ensures Valid() && returned == old(returned)
      ensures reply.Granted? <==> old(Grantable(containers))
      ensures reply == NoHealthyCapacity <==> old(OutOfCapacity(containers))
      ensures reply.Granted? ==>
        reply.lease.token == uuid && issued == old(issued) + {uuid} && LeasedOut(old(containers), containers, reply.lease)
      ensures reply.Granted? && reply.lease.role == Spare ==>
        forall i :: 0 <= i < |old(containers)| && old(containers)[i].role == Active ==> old(containers)[i].state != Available
      ensures !reply.Granted? ==> containers == old(containers) && issued == old(issued)
      ensures Outcome(containers, reply, WakeNone) == AfterAcquire(old(containers), uuid)
    {
      AcquireKeepsBooked(containers, uuid, issued, returned);
      AcquireIsWorkConserving(containers);
      reply := Search(uuid);
      if reply.Granted? { issued := issued + {uuid}; }
    }

    /** The counts and searches of one pass. */
    method Search(uuid: Token) returns (reply: Reply)
      modifies this`containers
      ensures Outcome(containers, reply, WakeNone) == AfterAcquire(old(containers), uuid)
    {
      var serviceable, capacity := Serviceable(containers), Capacity(containers);
      if serviceable < capacity && RecoveringTotal(containers) == 0 { return NoHealthyCapacity; }
      var leased := LeasedTotal(containers);
      if serviceable >= capacity && leased < capacity {
        var i := FirstAvailable(containers, Active);
        if i < |containers| {
          reply := LeaseLocked(i, uuid);
          return;
        }
      }
      if serviceable >= capacity && leased < capacity && LeasedSpares(containers) < UnavailableActive(containers) {
        var i := FirstAvailable(containers, Spare);
        if i < |containers| {
          reply := LeaseLocked(i, uuid);
          return;
        }
      }
      reply := Blocked;
    }

    method LeaseLocked(i: nat, uuid: Token) returns (reply: Reply)
      requires i < |containers|
      modifies this`containers
      ensures containers == LeaseOut(old(containers), i, uuid)
      ensures reply == Granted(Lease(old(containers)[i].endpoint, uuid, old(containers)[i].role))
    {
      var c := containers[i];
      containers := containers[i := c.(state := Leased, token := Some(uuid))];
      reply := Granted(Lease(c.endpoint, uuid, c.role));
    }

    /** A live lease is over and one thread wakes; any other is refused and changes nothing. */
    method Release(lease: Lease) returns (reply: Reply, wake: Wake)
      requires Valid()
      modifies this
      ensures Valid() && issued == old(issued)
      ensures reply == if old(Accepts(containers, lease)) then Done else InvalidLease
      ensures reply == Done ==>
        GivenBack(old(containers), containers, lease, Available) && returned == old(returned) + {lease.token} && wake == WakeOne
      ensures reply == InvalidLease ==> containers == old(containers) && returned == old(returned) && wake == WakeNone
      ensures Outcome(containers, reply, wake) == AfterRelease(old(containers), lease)
    {
      ReleaseReturns(containers, lease, issued, returned);
      var i := Holder(containers, lease);
      if i == |containers| { return InvalidLease, WakeNone; }
      containers := containers[i := containers[i].(state := Available, token := None)];
      returned := returned + {lease.token};
      return Done, WakeOne;
    }

    /** The same with the container set aside, and everybody woken. */
    method Quarantine(lease: Lease, error: string) returns (reply: Reply, wake: Wake)
      requires Valid()
      modifies this
      ensures Valid() && issued == old(issued)
      ensures reply == if old(Accepts(containers, lease)) then Done else InvalidLease
      ensures reply == Done ==>
        GivenBack(old(containers), containers, lease, Quarantined) && returned == old(returned) + {lease.token} && wake == WakeAll
      ensures reply == InvalidLease ==> containers == old(containers) && returned == old(returned) && wake == WakeNone
      ensures Outcome(containers, reply, wake) == AfterQuarantine(old(containers), lease, error)
    {
      QuarantineReturns(containers, lease, error, issued, returned);
      var i := Holder(containers, lease);
      if i == |containers| { return InvalidLease, WakeNone; }
      var c := containers[i];
      containers := containers[i := c.(state := Quarantined, token := None,
                                       failures := c.failures + 1, lastError := Some(error))];
      returned := returned + {lease.token};
      return Done, WakeAll;
    }

    /** The operator makes a container available that nobody leases; every lease stands, and one thread wakes. */
    method Recover(endpoint: string) returns (reply: Reply, wake: Wake)
      requires Valid()
      modifies this`containers
      ensures Valid()
      ensures reply == if !old(Known(containers, RStrip(endpoint))) then UnknownEndpoint
                       else if old(InState(containers, RStrip(endpoint), Leased)) then LeasedContainer else Done
      ensures reply == Done ==> ChangedIdle(old(containers), containers, RStrip(endpoint), Available) && wake == WakeOne
      ensures reply != Done ==> containers == old(containers) && wake == WakeNone
      ensures Outcome(containers, reply, wake) == AfterRecover(old(containers), RStrip(endpoint))
    {
      FindFindsKnown(containers, RStrip(endpoint), Leased);
      var i := Find(containers, RStrip(endpoint));
      if i == |containers| { return UnknownEndpoint, WakeNone; }
      if containers[i].state == Leased { return LeasedContainer, WakeNone; }
      var c := containers[i].(state := Available, lastError := None);
      IdleChangeKeepsBooked(containers, i, c, issued, returned);
      containers := containers[i := c];
      return Done, WakeOne;
    }

    /** A container nobody leases is taken out of service. */
    method Retire(endpoint: string, reason: string) returns (reply: Reply, wake: Wake)
      requires Valid()
      modifies this`containers
      ensures Valid()
      ensures reply == if !old(Known(containers, RStrip(endpoint))) then UnknownEndpoint
                       else if old(InState(containers, RStrip(endpoint), Leased)) then LeasedContainer else Done
      ensures reply == Done ==> ChangedIdle(old(containers), containers, RStrip(endpoint), Retired) && wake == WakeAll
      ensures reply != Done ==> containers == old(containers) && wake == WakeNone
      ensures Outcome(containers, reply, wake) == AfterRetire(old(containers), RStrip(endpoint), reason)
    {
      FindFindsKnown(containers, RStrip(endpoint), Leased);
      var i := Find(containers, RStrip(endpoint));
      if i == |containers| { return UnknownEndpoint, WakeNone; }
      if containers[i].state == Leased { return LeasedContainer, WakeNone; }
      var c := containers[i].(state := Retired, lastError := Some(reason));
      IdleChangeKeepsBooked(containers, i, c, issued, returned);
      containers := containers[i := c];
      return Done, WakeAll;
    }

    /** A recovery of a container nobody leases starts once. */
    method StartRecovery(endpoint: string) returns (reply: Reply, wake: Wake)
      requires Valid()
      modifies this`containers
      ensures Valid()
      ensures reply == if !old(Known(containers, endpoint)) then UnknownEndpoint
                       else if old(InState(containers, endpoint, Leased)) then LeasedContainer else Done
      ensures reply == Done && !old(InState(containers, endpoint, Recovering)) ==>
        ChangedIdle(old(containers), containers, endpoint, Recovering) && wake == WakeAll
      ensures reply != Done || old(InState(containers, endpoint, Recovering)) ==> containers == old(containers) && wake == WakeNone
      ensures Outcome(containers, reply, wake) == AfterStartRecovery(old(containers), endpoint)
    {
      FindFindsKnown(containers, endpoint, Leased);
      FindFindsKnown(containers, endpoint, Recovering);
      var i := Find(containers, endpoint);
      if i == |containers| { return UnknownEndpoint, WakeNone; }
      if containers[i].state == Recovering { return Done, WakeNone; }
      if containers[i].state == Leased { return LeasedContainer, WakeNone; }
      var c := containers[i].(state := Recovering);
      IdleChangeKeepsBooked(containers, i, c, issued, returned);
      containers := containers[i := c];
      return Done, WakeAll;
    }

    /** A recovery that ends, however late, touches its container only if that is still recovering. */
    method RecoverEndpoint(endpoint: string, failure: Option<string>) returns (reply: Reply, wake: Wake)
      requires Valid()
      modifies this`containers
      ensures Valid()
      ensures reply == if old(Known(containers, endpoint)) then Done else UnknownEndpoint
      ensures old(InState(containers, endpoint, Recovering)) ==>
        ChangedIdle(old(containers), containers, endpoint, if failure == None then Available else Quarantined) && wake == WakeAll
      ensures !old(InState(containers, endpoint, Recovering)) ==> containers == old(containers) && wake == WakeNone
      ensures Outcome(containers, reply, wake) == AfterEndRecovery(old(containers), endpoint, failure)
    {
      FindFindsKnown(containers, endpoint, Recovering);
      var i := Find(containers, endpoint);
      if i == |containers| { return UnknownEndpoint, WakeNone; }
      if containers[i].state != Recovering { return Done, WakeNone; }
      var c := containers[i];
      if failure.Some? {
        c := c.(state := Quarantined, lastError := Some("recovery failed: " + failure.value));
      } else {
        c := c.(state := Available, lastError := None);
      }
      IdleChangeKeepsBooked(containers, i, c, issued, returned);
      containers := containers[i := c];
      return Done, WakeAll;
    }
  }

  // ----- interleavings -----

  type Thread = nat

  /** Threads asleep in the condition, and threads that were notified (or timed out) but have not run yet. */
  datatype Sys = Sys(containers: seq<Container>, asleep: set<Thread>, notified: set<Thread>)

  datatype Event =
    | Pass(thread: Thread, token: Token, expired: bool)
    | WakesByTimeout(thread: Thread)
    | Releases(lease: Lease, chosen: Option<Thread>)
    | Quarantines(lease: Lease, error: string)
    | Retires(endpoint: string, reason: string)
    | RecoveryStarts(endpoint: string)
    | RecoveryEnds(endpoint: string, failure: Option<string>)
    | OperatorRecovers(endpoint: string, chosen: Option<Thread>)

  /** `notify` picks a sleeper whenever there is one. */
  predicate Picks(asleep: set<Thread>, chosen: Option<Thread>) {
    if chosen.Some? then chosen.value in asleep else asleep == {}
  }

  predicate Enabled(s: Sys, e: Event) {
    match e
    case Pass(thread, _, _) => thread !in s.asleep
    case WakesByTimeout(thread) => thread in s.asleep
    case Releases(_, chosen) => Picks(s.asleep, chosen)
    case OperatorRecovers(_, chosen) => Picks(s.asleep, chosen)
    case _ => true
  }

  function Rouse(s: Sys, o: Outcome, chosen: Option<Thread>): Sys {
    match o.wake
    case WakeNone => s.(containers := o.containers)
    case WakeAll => Sys(o.containers, {}, s.notified + s.asleep)
    case WakeOne =>
      if chosen.Some? then Sys(o.containers, s.asleep - {chosen.value}, s.notified + {chosen.value})
      else s.(containers := o.containers)
  }

  /** A woken thread checks the pool before it checks its deadline. */
  function Step(s: Sys, e: Event): Sys {
    match e
    case Pass(thread, token, expired) =>
      var o := AfterAcquire(s.containers, token);
      if o.reply == Blocked && !expired then Sys(o.containers, s.asleep + {thread}, s.notified - {thread})
      else Sys(o.containers, s.asleep, s.notified - {thread})
    case WakesByTimeout(thread) => s.(asleep := s.asleep - {thread}, notified := s.notified + {thread})
    case Releases(lease, chosen) => Rouse(s, AfterRelease(s.containers, lease), chosen)
    case Quarantines(lease, error) => Rouse(s, AfterQuarantine(s.containers, lease, error), None)
    case Retires(endpoint, reason) => Rouse(s, AfterRetire(s.containers, endpoint, reason), None)
    case RecoveryStarts(endpoint) => Rouse(s, AfterStartRecovery(s.containers, endpoint), None)
    case RecoveryEnds(endpoint, failure) => Rouse(s, AfterEndRecovery(s.containers, endpoint, failure), None)
    case OperatorRecovers(endpoint, chosen) => Rouse(s, AfterRecover(s.containers, endpoint), chosen)
  }

  /** While someone sleeps, every lease that could be granted has a notified thread coming for it. */
  predicate Covered(s: Sys) {
    && s.asleep !! s.notified
    && (s.asleep != {} ==> Grants(s.containers) <= |s.notified| && !OutOfCapacity(s.containers))
  }

  /** A grant uses up exactly one of the leases that could be granted. */
  lemma GrantUsesOne(cs: seq<Container>, token: Token)
    requires Decide(cs).Grant?
    ensures Grants(AfterAcquire(cs, token).containers) == Grants(cs) - 1
    ensures !OutOfCapacity(AfterAcquire(cs, token).containers)
  {
    AcquireIsWorkConserving(cs);
    var i := Decide(cs).index;
    CountsAfterUpdate(cs, i, cs[i].(state := Leased, token := Some(token)));
  }

  /** A release opens up at most one further lease. */
  lemma ReleaseOpensOne(cs: seq<Container>, lease: Lease)
    ensures Grants(AfterRelease(cs, lease).containers) <= Grants(cs) + 1
    ensures OutOfCapacity(AfterRelease(cs, lease).containers) ==> OutOfCapacity(cs)
  {
    var i := Holder(cs, lease);
    if i < |cs| { CountsAfterUpdate(cs, i, SetState(cs[i], Available)); }
  }

  lemma PassKeepsCovered(s: Sys, e: Event)
    requires Covered(s) && Enabled(s, e) && e.Pass?
    ensures Covered(Step(s, e))
  {
    AcquireIsWorkConserving(s.containers);
    if Decide(s.containers).Grant? { GrantUsesOne(s.containers, e.token); }
  }

  /** Waking one thread per release loses nothing, whoever else acquires, times out or recovers meanwhile. */
  lemma StepKeepsCovered(s: Sys, e: Event)
    requires Covered(s) && Enabled(s, e) && !e.OperatorRecovers?
    ensures Covered(Step(s, e))
  {
    match e {
      case Pass(_, _, _) => PassKeepsCovered(s, e);
      case Releases(lease, chosen) =>
        ReleaseOpensOne(s.containers, lease);
        if chosen.Some? { assert |s.notified + {chosen.value}| == |s.notified| + 1; }
      case WakesByTimeout(thread) => assert |s.notified + {thread}| == |s.notified| + 1;
      case _ =>
    }
  }

  ghost predicate Run(states: seq<Sys>, events: seq<Event>) {
    && |states| == |events| + 1
    && states[0].asleep == {}
    && states[0].notified == {}
    && forall i :: 0 <= i < |events| ==> Enabled(states[i], events[i]) && states[i + 1] == Step(states[i], events[i])
  }

  /** In every run without operator calls, sleepers are covered: one wakeup per release is enough. */
  lemma {:induction false} NotifyOneSuffices(states: seq<Sys>, events: seq<Event>, k: nat)
    requires Run(states, events) && k < |states|
    requires forall e :: e in events ==> !e.OperatorRecovers?
    ensures Covered(states[k])
  {
    if k > 0 {
      NotifyOneSuffices(states, events, k - 1);
      assert events[k - 1] in events && Enabled(states[k - 1], events[k - 1]);
      StepKeepsCovered(states[k - 1], events[k - 1]);
    }
  }

  /** When nobody has a wakeup pending, no sleeper could be granted a lease and none should fail. */
  lemma SleepersAreRight(s: Sys)
    requires Covered(s) && s.notified == {} && s.asleep != {}
    ensures Decide(s.containers) == Wait
  {
    AcquireIsWorkConserving(s.containers);
  }

  /**
   * When the operator's single wakeup is enough: the container was already available; at most one thread sleeps;
   * service was not short; service ends exactly sufficient with few enough leases opening; or it stays short while
   * some other container is still recovering.
   */
  predicate OneWakeupCovers(s: Sys, i: nat)
    requires i < |s.containers|
  {
    var cs := s.containers;
    || cs[i].state == Available
    || |s.asleep| <= 1
    || Serviceable(cs) >= Capacity(cs)
    || (Serviceable(cs) + 1 == Capacity(cs) && Capacity(cs) <= LeasedTotal(cs) + |s.notified| + 1)
    || (Serviceable(cs) + 1 < Capacity(cs) && (cs[i].state == Recovering ==> RecoveringTotal(cs) > 1))
  }

  /** The operator's `recover` wakes one thread only; that keeps the sleepers covered in exactly those cases. */
  lemma RecoverKeepsCoveredIff(s: Sys, endpoint: string, chosen: Option<Thread>)
    requires Covered(s) && Picks(s.asleep, chosen)
    requires Find(s.containers, endpoint) < |s.containers|
    requires s.containers[Find(s.containers, endpoint)].state != Leased
    ensures Covered(Step(s, OperatorRecovers(endpoint, chosen)))
        <==> OneWakeupCovers(s, Find(s.containers, endpoint))
  {
    var cs := s.containers;
    var i := Find(cs, endpoint);
    var c := cs[i].(state := Available, lastError := None);
    CountsAfterUpdate(cs, i, c);
    CountsAddUp(cs);
    if chosen.Some? {
      assert |s.notified + {chosen.value}| == |s.notified| + 1;
      assert |s.asleep - {chosen.value}| == |s.asleep| - 1;
    }
    TallyPositive(cs, ROLES, {Recovering});
    assert cs[i].state == Recovering ==> Matches(cs[i], ROLES, {Recovering});
  }

  lemma PairCounts(a: Container, b: Container)
    requires a.role == b.role == Active
    ensures Capacity([a, b]) == 2
    ensures Serviceable([a, b]) == (if a.state in IN_SERVICE then 1 else 0) + (if b.state in IN_SERVICE then 1 else 0)
    ensures LeasedTotal([a, b]) == (if a.state == Leased then 1 else 0) + (if b.state == Leased then 1 else 0)
    ensures RecoveringTotal([a, b]) == (if a.state == Recovering then 1 else 0) + (if b.state == Recovering then 1 else 0)
  {
    EveryState(a.state);
    EveryState(b.state);
    assert [a, b] == [a] + [b] && [a] == [a] + [];
    forall roles, states ensures Tally([a, b], roles, states)
      == (if Matches(a, roles, states) then 1 else 0) + (if Matches(b, roles, states) then 1 else 0)
    {
      TallyAppend([a], [b], roles, states);
      assert Tally([a], roles, states) == if Matches(a, roles, states) then 1 else 0;
      assert Tally([b], roles, states) == if Matches(b, roles, states) then 1 else 0;
    }
  }

  /** Two sleepers, two leases open up, one wakes: after the operator's call a thread sleeps beside a free container. */
  lemma RecoverCanLoseAWakeup()
    ensures var s := Sys([NewContainer("a", Active), NewContainer("b", Active).(state := Recovering)], {1, 2}, {});
      var u := Step(Step(s, OperatorRecovers("b", Some(1))), Pass(1, 7, false));
      && Covered(s)
      && u.asleep == {2} && u.notified == {} && Decide(u.containers) == Grant(1)
  {
    var a, b := NewContainer("a", Active), NewContainer("b", Active);
    var leased := a.(state := Leased, token := Some(7));
    var s := Sys([a, b.(state := Recovering)], {1, 2}, {});
    PairCounts(a, b.(state := Recovering));
    PairCounts(a, b);
    PairCounts(leased, b);
    assert s.containers[1..] == [b.(state := Recovering)];
    var t := Step(s, OperatorRecovers("b", Some(1)));
    assert t.containers == [a, b];
    AcquireIsWorkConserving([a, b]);
    AcquireIsWorkConserving([leased, b]);
    var u := Step(t, Pass(1, 7, false));
    assert u.containers == [leased, b] && u.containers[1..] == [b];
  }
}
