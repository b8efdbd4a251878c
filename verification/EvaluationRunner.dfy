/**
 * The evaluation workers: each runs jobs attempt by attempt, leasing a container, initialising a task on it,
 * tearing the task down and giving the container back, while other workers and recoveries interleave at will.
 */
module EvaluationRunner {
  import opened Containers
  import Pool = ThreadedPool

  /** The exceptions the attempt loop tells apart. */
  datatype Failure = Infrastructure | ModelBackend | TimedOut | Unexpected

  datatype Outcome = Succeeds | Raise(failure: Failure)

  /** The stages of an attempt at which a call into the environment or the model can raise. */
  datatype Stage = Health | Controller | Goal | TaskInit | FirstScreenshot | Rollout | TearDown

  datatype Disposition = ToRelease | ToQuarantine

  datatype Then = Record | Retry | Reraise

  datatype Result = Scored | Exhausted | Aborted | LeftHolding(lease: Lease) | Refused

  /** Where a worker stands in the attempt loop, with the locals that matter: `lease` and `initialized`. */
  datatype Pc =
    | Acquiring
    | Working(lease: Lease, stage: Stage, initialized: bool)
    | CleaningUp(lease: Lease, failure: Failure)
    | Disposing(lease: Lease, disposition: Disposition, next: Then)
    | DisposingAgain(lease: Lease)
    | Recording
    | Reporting
    | Finished(result: Result)

  datatype Worker = Worker(attempt: nat, pc: Pc)

  function Next(stage: Stage): Stage {
    match stage
    case Health => Controller
    case Controller => Goal
    case Goal => TaskInit
    case TaskInit => FirstScreenshot
    case FirstScreenshot => Rollout
    case Rollout => TearDown
    case TearDown => TearDown
  }

  /** The retry loop: an attempt that failed is followed by another until they run out. */
  function AfterFailedAttempt(w: Worker, maxAttempts: nat): Worker {
    if w.attempt < maxAttempts then Worker(w.attempt + 1, Acquiring) else w.(pc := Finished(Exhausted))
  }

  /** The exception handlers around an attempt that holds a lease. */
  function Handle(w: Worker, lease: Lease, stage: Stage, initialized: bool, failure: Failure): Worker {
    if stage == TearDown && failure in {Infrastructure, TimedOut} then w.(pc := Disposing(lease, ToQuarantine, Record))
    else if failure == Unexpected then w.(pc := Disposing(lease, ToQuarantine, Reraise))
    else if initialized && stage != TearDown then w.(pc := CleaningUp(lease, failure))
    else w.(pc := Disposing(lease, if failure == ModelBackend then ToRelease else ToQuarantine, Retry))
  }

  /** One call into the environment or the model, and what its outcome leads to. */
  function AfterCall(w: Worker, o: Outcome): Worker
    requires w.pc.Working?
  {
    var Working(lease, stage, initialized) := w.pc;
    if o.Raise? then Handle(w, lease, stage, initialized, o.failure)
    else if stage == TearDown then w.(pc := Disposing(lease, ToRelease, Record))
    else w.(pc := Working(lease, Next(stage), initialized || stage == TaskInit))
  }

  /** The handler's own teardown: only an InfrastructureError is caught there. */
  function AfterCleanup(w: Worker, o: Outcome): Worker
    requires w.pc.CleaningUp?
  {
    if o == Succeeds then
      w.(pc := Disposing(w.pc.lease, if w.pc.failure == ModelBackend then ToRelease else ToQuarantine, Retry))
    else if o.failure == Infrastructure then w.(pc := Disposing(w.pc.lease, ToQuarantine, Retry))
    else w.(pc := Finished(LeftHolding(w.pc.lease)))
  }

  /**
   * The pool was asked to take the container back. What it raises inside the attempt's `try`, where `lease` is
   * still set, reaches a handler that quarantines the lease once more; what it raises in a handler ends the job.
   */
  function AfterDisposal(w: Worker, accepted: bool, o: Outcome): Worker
    requires w.pc.Disposing?
  {
    if accepted && o == Succeeds then
      match w.pc.next
      case Record => w.(pc := Recording)
      case Retry => w.(pc := Reporting)
      case Reraise => w.(pc := Finished(Aborted))
    else if w.pc.next == Record then w.(pc := DisposingAgain(w.pc.lease))
    else w.(pc := Finished(if accepted then Aborted else Refused))
  }

  /** Writing the episode, and after a failed attempt the attempt's record. */
  function AfterRecording(w: Worker, o: Outcome): Worker {
    if o == Succeeds then w.(pc := Finished(Scored))
    else if o.failure == Unexpected then w.(pc := Finished(Aborted))
    else w.(pc := Reporting)
  }

  function AfterReporting(w: Worker, o: Outcome, maxAttempts: nat): Worker {
    if o == Succeeds then AfterFailedAttempt(w, maxAttempts) else w.(pc := Finished(Aborted))
  }

  /** `dirty` holds the endpoints with an initialised task on them; `returned` counts accepted give-backs per token. */
  datatype Sys = Sys(
    containers: seq<Container>,
    workers: seq<Worker>,
    dirty: set<string>,
    issued: set<Token>,
    returned: multiset<Token>,
    maxAttempts: nat)

  /**
   * `touched` says whether a call that raised had its effect on the environment nevertheless. The outcome of a
   * disposal follows its effect: `quarantine` writes the endpoint state after it has left its critical section.
   */
  datatype Event =
    | Acquires(worker: nat, token: Token, expired: bool)
    | Calls(worker: nat, outcome: Outcome, touched: bool)
    | CleansUp(worker: nat, outcome: Outcome, touched: bool)
    | Disposes(worker: nat, outcome: Outcome)
    | DisposesAgain(worker: nat)
    | Records(worker: nat, outcome: Outcome)
    | Reports(worker: nat, outcome: Outcome)
    | RecoveryStarts(endpoint: string)
    | RecoveryEnds(endpoint: string, failure: Option<string>)
    | Retires(endpoint: string, reason: string)

  predicate Enabled(s: Sys, e: Event) {
    match e
    case Acquires(w, token, _) => w < |s.workers| && s.workers[w].pc == Acquiring && token !in s.issued
    case Calls(w, _, _) => w < |s.workers| && s.workers[w].pc.Working?
    case CleansUp(w, _, _) => w < |s.workers| && s.workers[w].pc.CleaningUp?
    case Disposes(w, o) =>
      w < |s.workers| && s.workers[w].pc.Disposing? && (s.workers[w].pc.disposition == ToRelease ==> o == Succeeds)
    case DisposesAgain(w) => w < |s.workers| && s.workers[w].pc.DisposingAgain?
    case Records(w, _) => w < |s.workers| && s.workers[w].pc == Recording
    case Reports(w, _) => w < |s.workers| && s.workers[w].pc == Reporting
    case _ => true
  }

  function Set(s: Sys, w: nat, to: Worker): Sys
    requires w < |s.workers|
  {
    s.(workers := s.workers[w := to])
  }

  function AcquireStep(s: Sys, w: nat, token: Token, expired: bool): Sys
    requires w < |s.workers|
  {
    var o := Pool.AfterAcquire(s.containers, token);
    if o.reply.Granted? then
      Set(s, w, s.workers[w].(pc := Working(o.reply.lease, Health, false)))
        .(containers := o.containers, issued := s.issued + {token})
    else if o.reply == Pool.Blocked && !expired then s
    else Set(s, w, s.workers[w].(pc := Reporting))
  }

  function CallStep(s: Sys, w: nat, o: Outcome, touched: bool): Sys
    requires w < |s.workers| && s.workers[w].pc.Working?
  {
    var pc := s.workers[w].pc;
    var happened := o == Succeeds || touched;
    Set(s, w, AfterCall(s.workers[w], o)).(dirty :=
      if happened && pc.stage == TaskInit then s.dirty + {pc.lease.endpoint}
      else if happened && pc.stage == TearDown then s.dirty - {pc.lease.endpoint}
      else s.dirty)
  }

  function CleanupStep(s: Sys, w: nat, o: Outcome, touched: bool): Sys
    requires w < |s.workers| && s.workers[w].pc.CleaningUp?
  {
    Set(s, w, AfterCleanup(s.workers[w], o))
      .(dirty := if o == Succeeds || touched then s.dirty - {s.workers[w].pc.lease.endpoint} else s.dirty)
  }

  function DisposeStep(s: Sys, w: nat, outcome: Outcome): Sys
    requires w < |s.workers| && s.workers[w].pc.Disposing?
  {
    var lease := s.workers[w].pc.lease;
    var o := if s.workers[w].pc.disposition == ToRelease then Pool.AfterRelease(s.containers, lease)
             else Pool.AfterQuarantine(s.containers, lease, "attempt failed");
    Set(s, w, AfterDisposal(s.workers[w], o.reply == Pool.Done, outcome))
      .(containers := o.containers,
        returned := if o.reply == Pool.Done then s.returned + multiset{lease.token} else s.returned)
  }

  function DisposeAgainStep(s: Sys, w: nat): Sys
    requires w < |s.workers| && s.workers[w].pc.DisposingAgain?
  {
    var lease := s.workers[w].pc.lease;
    var o := Pool.AfterQuarantine(s.containers, lease, "give-back raised");
    Set(s, w, s.workers[w].(pc := Finished(if o.reply == Pool.Done then Aborted else Refused)))
      .(containers := o.containers,
        returned := if o.reply == Pool.Done then s.returned + multiset{lease.token} else s.returned)
  }

  /** A recovery that succeeds leaves the container without a task. */
  function RecoveryStep(s: Sys, endpoint: string, failure: Option<string>): Sys {
    var i := Find(s.containers, endpoint);
    s.(containers := Pool.AfterEndRecovery(s.containers, endpoint, failure).containers,
       dirty := if i < |s.containers| && s.containers[i].state == Recovering && failure == None
                then s.dirty - {endpoint} else s.dirty)
  }

  function Step(s: Sys, e: Event): Sys
    requires Enabled(s, e)
  {
    match e
    case Acquires(w, token, expired) => AcquireStep(s, w, token, expired)
    case Calls(w, o, touched) => CallStep(s, w, o, touched)
    case CleansUp(w, o, touched) => CleanupStep(s, w, o, touched)
    case Disposes(w, o) => DisposeStep(s, w, o)
    case DisposesAgain(w) => DisposeAgainStep(s, w)
    case Records(w, o) => Set(s, w, AfterRecording(s.workers[w], o))
    case Reports(w, o) => Set(s, w, AfterReporting(s.workers[w], o, s.maxAttempts))
    case RecoveryStarts(endpoint) => s.(containers := Pool.AfterStartRecovery(s.containers, endpoint).containers)
    case RecoveryEnds(endpoint, failure) => RecoveryStep(s, endpoint, failure)
    case Retires(endpoint, reason) => s.(containers := Pool.AfterRetire(s.containers, endpoint, reason).containers)
  }

  // ----- what every interleaving keeps -----

  function Held(pc: Pc): Option<Lease> {
    match pc
    case Working(lease, _, _) => Some(lease)
    case CleaningUp(lease, _) => Some(lease)
    case Disposing(lease, _, _) => Some(lease)
    case Finished(LeftHolding(lease)) => Some(lease)
    case _ => None
  }

  /** Every issued token is either live or was given back exactly once. */
  predicate BookedOnce(cs: seq<Container>, issued: set<Token>, returned: multiset<Token>) {
    && Sound(cs)
    && Live(cs) <= issued
    && (forall t :: t in returned ==> returned[t] == 1 && t in issued && t !in Live(cs))
    && (forall t :: t in issued ==> t in Live(cs) || t in returned)
  }

  /** The live leases are divided among the workers. */
  ghost predicate Assigned(cs: seq<Container>, ws: seq<Worker>, returned: multiset<Token>) {
    && (forall w :: 0 <= w < |ws| && Held(ws[w].pc).Some? ==> Holder(cs, Held(ws[w].pc).value) < |cs|)
    && (forall v, w :: 0 <= v < w < |ws| && Held(ws[v].pc).Some? && Held(ws[w].pc).Some? ==>
          Held(ws[v].pc).value.token != Held(ws[w].pc).value.token)
    && (forall t :: t in Live(cs) ==> exists w :: 0 <= w < |ws| && Holds(ws[w].pc, t))
    && (forall w :: 0 <= w < |ws| ==> GaveBack(ws[w].pc, returned))
  }

  /** Every issued token is either the one live lease of one worker or was given back exactly once. */
  ghost predicate Accounted(s: Sys) {
    BookedOnce(s.containers, s.issued, s.returned) && Assigned(s.containers, s.workers, s.returned)
  }

  /** Who is about to give a lease back a second time has given it back once. */
  predicate GaveBack(pc: Pc, returned: multiset<Token>) {
    pc.DisposingAgain? ==> pc.lease.token in returned
  }

  predicate Holds(pc: Pc, token: Token) {
    Held(pc).Some? && Held(pc).value.token == token
  }

  /** A change of one worker that neither takes nor drops a lease. */
  lemma SameLeaseKeepsAssigned(cs: seq<Container>, ws: seq<Worker>, returned: multiset<Token>, w: nat, to: Worker)
    requires Assigned(cs, ws, returned) && w < |ws|
    requires Held(to.pc) == Held(ws[w].pc) && !to.pc.DisposingAgain?
    ensures Assigned(cs, ws[w := to], returned)
  {
    var vs := ws[w := to];
    forall t | t in Live(cs) ensures exists v :: 0 <= v < |vs| && Holds(vs[v].pc, t) {
      var v :| 0 <= v < |ws| && Holds(ws[v].pc, t);
      assert Holds(vs[v].pc, t);
    }
  }

  /** A container nobody leases may change without becoming leased. */
  lemma IdleChangeKeepsAccounted(s: Sys, i: nat, c: Container)
    requires Accounted(s) && i < |s.containers| && s.containers[i].state != Leased
    requires c.endpoint == s.containers[i].endpoint && c.role == s.containers[i].role
    requires c.state != Leased && c.token == None
    ensures Accounted(s.(containers := s.containers[i := c]))
  {
    IdleKeepsSound(s.containers, i, c);
    forall w | 0 <= w < |s.workers| && Held(s.workers[w].pc).Some?
      ensures Holder(s.containers[i := c], Held(s.workers[w].pc).value) < |s.containers|
    {
      HolderSurvives(s.containers, i, c, Held(s.workers[w].pc).value);
    }
  }

  lemma GrantIsBooked(cs: seq<Container>, issued: set<Token>, returned: multiset<Token>, i: nat, token: Token)
    requires BookedOnce(cs, issued, returned) && Decide(cs) == Grant(i) && token !in issued
    ensures i < |cs| && BookedOnce(LeaseOut(cs, i, token), issued + {token}, returned)
    ensures Live(LeaseOut(cs, i, token)) == Live(cs) + {token}
  {
    LeaseOutKeepsSound(cs, i, token);
  }

  lemma GrantKeepsAssigned(cs: seq<Container>, ws: seq<Worker>, returned: multiset<Token>, w: nat, i: nat, token: Token, to: Worker)
    requires UniqueEndpoints(cs) && Assigned(cs, ws, returned) && w < |ws| && i < |cs| && cs[i].state == Available
    requires Held(to.pc) == Some(Lease(cs[i].endpoint, token, cs[i].role)) && Held(ws[w].pc) == None && !to.pc.DisposingAgain?
    requires token !in Live(cs) && Live(LeaseOut(cs, i, token)) == Live(cs) + {token}
    ensures Assigned(LeaseOut(cs, i, token), ws[w := to], returned)
  {
    var ds, vs := LeaseOut(cs, i, token), ws[w := to];
    FindIs(ds, cs[i].endpoint, i);
    forall v | 0 <= v < |vs| && Held(vs[v].pc).Some?
      ensures Holder(ds, Held(vs[v].pc).value) < |ds|
      ensures v != w ==> Held(vs[v].pc).value.token != token
    {
      if v != w {
        var held := Held(ws[v].pc).value;
        HolderIsLive(cs, held);
        HolderSurvives(cs, i, ds[i], held);
      }
    }
    forall t | t in Live(ds) ensures exists v :: 0 <= v < |vs| && Holds(vs[v].pc, t) {
      if t == token {
        assert Holds(vs[w].pc, t);
      } else {
        var v :| 0 <= v < |ws| && Holds(ws[v].pc, t);
        assert Holds(vs[v].pc, t);
      }
    }
  }

  lemma GrantKeepsAccounted(s: Sys, w: nat, token: Token)
    requires Accounted(s) && w < |s.workers| && Held(s.workers[w].pc) == None && token !in s.issued
    requires Decide(s.containers).Grant?
    ensures Accounted(AcquireStep(s, w, token, false))
  {
    var cs, i := s.containers, Decide(s.containers).index;
    GrantIsBooked(cs, s.issued, s.returned, i, token);
    var lease := Lease(cs[i].endpoint, token, cs[i].role);
    GrantKeepsAssigned(cs, s.workers, s.returned, w, i, token, s.workers[w].(pc := Working(lease, Health, false)));
  }

  /** The pool accepts the give-back of whoever holds a lease. */
  lemma GiveBackIsBooked(cs: seq<Container>, issued: set<Token>, returned: multiset<Token>, lease: Lease, c: Container)
    requires BookedOnce(cs, issued, returned) && Holder(cs, lease) < |cs|
    requires c.endpoint == lease.endpoint && c.role == cs[Holder(cs, lease)].role && c.state != Leased && c.token == None
    ensures BookedOnce(cs[Holder(cs, lease) := c], issued, returned + multiset{lease.token})
    ensures Live(cs[Holder(cs, lease) := c]) == Live(cs) - {lease.token}
  {
    HolderIsLive(cs, lease);
    IdleKeepsSound(cs, Holder(cs, lease), c);
  }

  lemma GiveBackKeepsAssigned(cs: seq<Container>, ws: seq<Worker>, returned: multiset<Token>, w: nat, c: Container, to: Worker)
    requires UniqueEndpoints(cs) && Assigned(cs, ws, returned) && w < |ws| && Held(ws[w].pc).Some?
    requires Held(to.pc) == None && (to.pc.DisposingAgain? ==> to.pc.lease == Held(ws[w].pc).value)
    requires var lease := Held(ws[w].pc).value;
      c.endpoint == lease.endpoint && Live(cs[Holder(cs, lease) := c]) == Live(cs) - {lease.token}
    ensures var lease := Held(ws[w].pc).value;
      Assigned(cs[Holder(cs, lease) := c], ws[w := to], returned + multiset{lease.token})
  {
    var lease := Held(ws[w].pc).value;
    var i := Holder(cs, lease);
    var ds, vs := cs[i := c], ws[w := to];
    forall v | 0 <= v < |vs| && Held(vs[v].pc).Some? ensures v != w && Holder(ds, Held(vs[v].pc).value) < |ds| {
      var held := Held(ws[v].pc).value;
      assert held.token != lease.token;
      HolderSurvives(cs, i, c, held);
    }
    forall t | t in Live(ds) ensures exists v :: 0 <= v < |vs| && Holds(vs[v].pc, t) {
      var v :| 0 <= v < |ws| && Holds(ws[v].pc, t);
      assert Holds(vs[v].pc, t);
    }
    assert forall v :: 0 <= v < |ws| && v != w ==> vs[v] == ws[v] && GaveBack(ws[v].pc, returned);
  }

  /** The pool accepts the give-back of whoever holds a lease; the container becomes available only on a release. */
  lemma DisposalIsAccepted(s: Sys, w: nat, o: Outcome)
    requires Accounted(s) && w < |s.workers| && s.workers[w].pc.Disposing?
    ensures var (u, i, lease) := (DisposeStep(s, w, o), Holder(s.containers, s.workers[w].pc.lease), s.workers[w].pc.lease);
      && i < |s.containers| == |u.containers|
      && u == s.(containers := s.containers[i := u.containers[i]],
                 workers := s.workers[w := AfterDisposal(s.workers[w], true, o)],
                 returned := s.returned + multiset{lease.token})
      && u.containers[i].endpoint == lease.endpoint && u.containers[i].role == s.containers[i].role
      && u.containers[i].state != Leased && u.containers[i].token == None
      && (u.containers[i].state == Available ==> s.workers[w].pc.disposition == ToRelease)
  {
    assert Held(s.workers[w].pc) == Some(s.workers[w].pc.lease);
  }

  /** The lease of a give-back leaves the books as given back once, whatever the give-back then raises. */
  lemma DisposeKeepsAccounted(s: Sys, w: nat, o: Outcome)
    requires Accounted(s) && w < |s.workers| && s.workers[w].pc.Disposing?
    ensures Accounted(DisposeStep(s, w, o))
  {
    DisposalIsAccepted(s, w, o);
    var lease := s.workers[w].pc.lease;
    var c := DisposeStep(s, w, o).containers[Holder(s.containers, lease)];
    assert Held(s.workers[w].pc) == Some(lease);
    GiveBackIsBooked(s.containers, s.issued, s.returned, lease, c);
    GiveBackKeepsAssigned(s.containers, s.workers, s.returned, w, c, AfterDisposal(s.workers[w], true, o));
  }

  /** The second give-back is refused and changes nothing but the worker. */
  lemma DisposeAgainIsRefused(s: Sys, w: nat)
    requires Accounted(s) && w < |s.workers| && s.workers[w].pc.DisposingAgain?
    ensures DisposeAgainStep(s, w) == Set(s, w, s.workers[w].(pc := Finished(Refused)))
    ensures Accounted(DisposeAgainStep(s, w))
  {
    assert GaveBack(s.workers[w].pc, s.returned);
    HolderIsLive(s.containers, s.workers[w].pc.lease);
    SameLeaseKeepsAssigned(s.containers, s.workers, s.returned, w, s.workers[w].(pc := Finished(Refused)));
  }

  lemma BackgroundKeepsAccounted(s: Sys, e: Event)
    requires Accounted(s) && (e.RecoveryStarts? || e.RecoveryEnds? || e.Retires?)
    ensures Accounted(Step(s, e)) && Step(s, e).workers == s.workers
  {
    var i := Find(s.containers, e.endpoint);
    if i < |s.containers| && s.containers[i].state != Leased {
      IdleChangeKeepsAccounted(s, i, Step(s, e).containers[i]);
    }
  }

  /** A call, a cleanup or a record changes one worker, who keeps what lease it has. */
  lemma CallIsLocal(s: Sys, e: Event)
    requires Enabled(s, e) && (e.Calls? || e.CleansUp? || e.Records? || e.Reports?)
    ensures var u := Step(s, e);
      && u == s.(workers := u.workers, dirty := u.dirty)
      && e.worker < |s.workers| == |u.workers| && u.workers == s.workers[e.worker := u.workers[e.worker]]
      && Held(u.workers[e.worker].pc) == Held(s.workers[e.worker].pc)
      && !u.workers[e.worker].pc.DisposingAgain?
  {
  }

  lemma CallKeepsAccounted(s: Sys, e: Event)
    requires Accounted(s) && Enabled(s, e) && (e.Calls? || e.CleansUp? || e.Records? || e.Reports?)
    ensures Accounted(Step(s, e))
  {
    CallIsLocal(s, e);
    SameLeaseKeepsAssigned(s.containers, s.workers, s.returned, e.worker, Step(s, e).workers[e.worker]);
  }

  lemma AcquireKeepsAccounted(s: Sys, w: nat, token: Token, expired: bool)
    requires Accounted(s) && Enabled(s, Acquires(w, token, expired))
    ensures Accounted(AcquireStep(s, w, token, expired))
  {
    if Decide(s.containers).Grant? {
      GrantKeepsAccounted(s, w, token);
    } else {
      SameLeaseKeepsAssigned(s.containers, s.workers, s.returned, w, s.workers[w].(pc := Reporting));
      assert s.workers[w := s.workers[w]] == s.workers;
    }
  }

  /** Every step of every worker, recovery and retirement keeps the books, whatever raises. */
  lemma StepKeepsAccounted(s: Sys, e: Event)
    requires Accounted(s) && Enabled(s, e)
    ensures Accounted(Step(s, e))
  {
    match e {
      case Acquires(w, token, expired) => AcquireKeepsAccounted(s, w, token, expired);
      case Calls(_, _, _) => CallKeepsAccounted(s, e);
      case CleansUp(_, _, _) => CallKeepsAccounted(s, e);
      case Records(_, _) => CallKeepsAccounted(s, e);
      case Reports(_, _) => CallKeepsAccounted(s, e);
      case Disposes(w, o) => DisposeKeepsAccounted(s, w, o);
      case DisposesAgain(w) => DisposeAgainIsRefused(s, w);
      case _ => BackgroundKeepsAccounted(s, e);
    }
  }

  // ----- clean containers -----

  predicate StageTellsInitialized(pc: Pc) {
    pc.Working? ==> (pc.initialized <==> pc.stage in {FirstScreenshot, Rollout, TearDown})
  }

  /** A task is left only where somebody knows about it: never on an available container. */
  predicate Clean(s: Sys) {
    && (forall i :: 0 <= i < |s.containers| && s.containers[i].state == Available ==> s.containers[i].endpoint !in s.dirty)
    && (forall w :: 0 <= w < |s.workers| ==> StageTellsInitialized(s.workers[w].pc) && OwnsCleanly(s.workers[w].pc, s.dirty))
  }

  /** Before initialising, and when about to release, a worker's container carries no task. */
  predicate OwnsCleanly(pc: Pc, dirty: set<string>) {
    && (pc.Working? && !pc.initialized ==> pc.lease.endpoint !in dirty)
    && (pc.Disposing? && pc.disposition == ToRelease ==> pc.lease.endpoint !in dirty)
  }

  /** Model-backend errors come from the rollout; calls into the environment raise infrastructure errors. */
  predicate RaisesAsDeclared(s: Sys, e: Event) {
    e.Calls? && e.worker < |s.workers| && s.workers[e.worker].pc.Working? && s.workers[e.worker].pc.stage != Rollout ==>
      e.outcome != Raise(ModelBackend)
  }

  /** Two workers never hold the same container, and a held container is not available. */
  lemma HeldApart(s: Sys, v: nat, w: nat)
    requires Accounted(s) && v < |s.workers| && w < |s.workers| && Held(s.workers[w].pc).Some?
    ensures v != w && Held(s.workers[v].pc).Some? ==>
              Held(s.workers[v].pc).value.endpoint != Held(s.workers[w].pc).value.endpoint
    ensures forall i :: 0 <= i < |s.containers| && s.containers[i].endpoint == Held(s.workers[w].pc).value.endpoint ==>
              s.containers[i].state == Leased
  {
    var k := Holder(s.containers, Held(s.workers[w].pc).value);
    assert s.containers[k].endpoint == Held(s.workers[w].pc).value.endpoint;
    if v != w && Held(s.workers[v].pc).Some? {
      var j := Holder(s.containers, Held(s.workers[v].pc).value);
      assert s.containers[j].token != s.containers[k].token;
    }
  }

  /** A call only touches the caller's own container. */
  lemma CallKeepsClean(s: Sys, e: Event)
    requires Accounted(s) && Clean(s) && Enabled(s, e) && (e.Calls? || e.CleansUp?) && RaisesAsDeclared(s, e)
    ensures Clean(Step(s, e))
  {
    var u := Step(s, e);
    HeldApart(s, e.worker, e.worker);
    CallIsLocal(s, e);
    CallerStaysClean(s, e);
    forall v | 0 <= v < |u.workers|
      ensures StageTellsInitialized(u.workers[v].pc) && OwnsCleanly(u.workers[v].pc, u.dirty)
    {
      if v != e.worker {
        HeldApart(s, v, e.worker);
        assert u.workers[v] == s.workers[v];
      }
    }
  }

  /** What a call may do to the dirty endpoints: only the caller's changes. */
  lemma CallerStaysClean(s: Sys, e: Event)
    requires Clean(s) && Enabled(s, e) && (e.Calls? || e.CleansUp?) && RaisesAsDeclared(s, e)
    ensures Held(s.workers[e.worker].pc).Some?
    ensures var (u, mine) := (Step(s, e), Held(s.workers[e.worker].pc).value.endpoint);
      && (u.dirty == s.dirty || u.dirty == s.dirty + {mine} || u.dirty == s.dirty - {mine})
      && |u.workers| == |s.workers|
      && StageTellsInitialized(u.workers[e.worker].pc) && OwnsCleanly(u.workers[e.worker].pc, u.dirty)
  {
    assert StageTellsInitialized(s.workers[e.worker].pc) && OwnsCleanly(s.workers[e.worker].pc, s.dirty);
  }

  lemma DisposeKeepsClean(s: Sys, w: nat, o: Outcome)
    requires Accounted(s) && Clean(s) && w < |s.workers| && s.workers[w].pc.Disposing?
    ensures Clean(DisposeStep(s, w, o))
  {
    DisposalIsAccepted(s, w, o);
    assert OwnsCleanly(s.workers[w].pc, s.dirty);
  }

  lemma AcquireKeepsClean(s: Sys, w: nat, token: Token, expired: bool)
    requires Clean(s) && w < |s.workers|
    ensures Clean(AcquireStep(s, w, token, expired))
  {
    if Decide(s.containers).Grant? { GrantPrefersActive(s.containers); }
  }

  lemma BackgroundKeepsClean(s: Sys, e: Event)
    requires Accounted(s) && Clean(s) && (e.RecoveryStarts? || e.RecoveryEnds? || e.Retires?)
    ensures Clean(Step(s, e))
  {
  }

  lemma StepKeepsClean(s: Sys, e: Event)
    requires Accounted(s) && Clean(s) && Enabled(s, e) && RaisesAsDeclared(s, e)
    ensures Clean(Step(s, e))
  {
    match e {
      case Acquires(w, token, expired) => AcquireKeepsClean(s, w, token, expired);
      case Calls(_, _, _) => CallKeepsClean(s, e);
      case CleansUp(_, _, _) => CallKeepsClean(s, e);
      case Disposes(w, o) => DisposeKeepsClean(s, w, o);
      case DisposesAgain(w) => DisposeAgainIsRefused(s, w);
      case Records(_, _) =>
      case Reports(_, _) =>
      case _ => BackgroundKeepsClean(s, e);
    }
  }

  // ----- whole runs -----

  predicate Initial(s: Sys) {
    && UniqueEndpoints(s.containers)
    && (forall c :: c in s.containers ==> c.token == None && c.state != Leased)
    && s.maxAttempts >= 1
    && (forall w :: w in s.workers ==> w == Worker(1, Acquiring))
    && s.dirty == {} && s.issued == {} && s.returned == multiset{}
  }

  ghost predicate Run(states: seq<Sys>, events: seq<Event>) {
    && |states| == |events| + 1
    && Initial(states[0])
    && forall i :: 0 <= i < |events| ==> Enabled(states[i], events[i]) && states[i + 1] == Step(states[i], events[i])
  }

  /** In every run, whatever raises, every token is held by one worker or was given back exactly once. */
  lemma {:induction false} EveryRunIsAccounted(states: seq<Sys>, events: seq<Event>, k: nat)
    requires Run(states, events) && k < |states|
    ensures Accounted(states[k])
  {
    if k == 0 {
      FreshIsSound(states[0].containers);
      assert forall w :: 0 <= w < |states[0].workers| ==> states[0].workers[w] in states[0].workers;
    } else {
      EveryRunIsAccounted(states, events, k - 1);
      assert Enabled(states[k - 1], events[k - 1]);
      StepKeepsAccounted(states[k - 1], events[k - 1]);
    }
  }

  /** In every run where calls raise what they declare, an available container never carries an initialised task. */
  lemma {:induction false} AvailableContainersAreClean(states: seq<Sys>, events: seq<Event>, k: nat)
    requires Run(states, events) && k < |states|
    requires forall i :: 0 <= i < k ==> RaisesAsDeclared(states[i], events[i])
    ensures Clean(states[k])
  {
    if k == 0 {
      assert forall w :: 0 <= w < |states[0].workers| ==> states[0].workers[w] in states[0].workers;
    } else {
      AvailableContainersAreClean(states, events, k - 1);
      EveryRunIsAccounted(states, events, k - 1);
      assert Enabled(states[k - 1], events[k - 1]) && RaisesAsDeclared(states[k - 1], events[k - 1]);
      StepKeepsClean(states[k - 1], events[k - 1]);
    }
  }

  // ----- leases that are never given back -----

  predicate HoldsOn(w: Worker) {
    w.pc.Finished? && w.pc.result.LeftHolding?
  }

  /** The handler's teardown raises something the handler does not catch. */
  predicate Escapes(e: Event) {
    e.CleansUp? && e.outcome.Raise? && e.outcome.failure != Infrastructure
  }

  lemma HoldsOnAfterStep(s: Sys, e: Event, w: nat)
    requires Enabled(s, e) && w < |s.workers|
    ensures |Step(s, e).workers| == |s.workers|
    ensures HoldsOn(Step(s, e).workers[w]) <==> HoldsOn(s.workers[w]) || (Escapes(e) && e.worker == w)
  {
  }

  /** In every run, a worker has ended with its lease in hand exactly when its handler's teardown escaped before. */
  lemma {:induction false} LeaseLeaksIffCleanupEscaped(states: seq<Sys>, events: seq<Event>, k: nat, w: nat)
    requires Run(states, events) && k < |states| && w < |states[0].workers|
    ensures |states[k].workers| == |states[0].workers|
    ensures HoldsOn(states[k].workers[w])
       <==> exists i :: 0 <= i < k && Escapes(events[i]) && events[i].worker == w
  {
    if k == 0 {
      assert states[0].workers[w] in states[0].workers;
    } else {
      LeaseLeaksIffCleanupEscaped(states, events, k - 1, w);
      HoldsOnAfterStep(states[k - 1], events[k - 1], w);
    }
  }

  predicate AllFinished(s: Sys) {
    forall w :: 0 <= w < |s.workers| ==> s.workers[w].pc.Finished?
  }

  predicate NothingLeaked(s: Sys) {
    && (forall t :: t in s.issued ==> s.returned[t] == 1)
    && (forall i :: 0 <= i < |s.containers| ==> s.containers[i].state != Leased)
  }

  lemma NothingLeakedIffNobodyHoldsOn(s: Sys)
    requires Accounted(s) && AllFinished(s)
    ensures NothingLeaked(s) <==> forall w :: 0 <= w < |s.workers| ==> !HoldsOn(s.workers[w])
  {
    if forall w :: 0 <= w < |s.workers| ==> !HoldsOn(s.workers[w]) {
      assert forall w, t :: 0 <= w < |s.workers| ==> !Holds(s.workers[w].pc, t);
      assert Live(s.containers) == {};
      forall i | 0 <= i < |s.containers| ensures s.containers[i].state != Leased { TokenIsLive(s.containers, i); }
    } else {
      var w :| 0 <= w < |s.workers| && HoldsOn(s.workers[w]);
      assert Holder(s.containers, Held(s.workers[w].pc).value) < |s.containers|;
    }
  }

  /**
   * Once every worker has finished, every lease ever taken has been given back exactly once and no container is
   * leased, if and only if no handler's teardown of the run raised anything but an InfrastructureError.
   */
  lemma AllLeasesGivenBackIff(states: seq<Sys>, events: seq<Event>)
    requires Run(states, events) && AllFinished(states[|events|])
    ensures NothingLeaked(states[|events|]) <==> forall i :: 0 <= i < |events| ==> !Escapes(events[i])
  {
    var s := states[|events|];
    EveryRunIsAccounted(states, events, |events|);
    NothingLeakedIffNobodyHoldsOn(s);
    WorkersStay(states, events, |events|);
    forall w | 0 <= w < |s.workers|
      ensures HoldsOn(s.workers[w]) <==> exists i :: 0 <= i < |events| && Escapes(events[i]) && events[i].worker == w
    {
      LeaseLeaksIffCleanupEscaped(states, events, |events|, w);
    }
    forall i | 0 <= i < |events| && Escapes(events[i]) ensures exists w :: 0 <= w < |s.workers| && HoldsOn(s.workers[w]) {
      WorkersStay(states, events, i);
      assert Enabled(states[i], events[i]);
      assert HoldsOn(s.workers[events[i].worker]);
    }
  }

  lemma {:induction false} WorkersStay(states: seq<Sys>, events: seq<Event>, k: nat)
    requires Run(states, events) && k < |states|
    ensures |states[k].workers| == |states[0].workers| && states[k].maxAttempts == states[0].maxAttempts
  {
    if k > 0 {
      WorkersStay(states, events, k - 1);
      assert Enabled(states[k - 1], events[k - 1]);
    }
  }

  // ----- give-backs that are refused -----

  /** A quarantine inside the attempt's `try` raises after its critical section. */
  predicate Slips(s: Sys, e: Event) {
    && e.Disposes? && e.outcome.Raise?
    && e.worker < |s.workers| && s.workers[e.worker].pc.Disposing? && s.workers[e.worker].pc.next == Record
  }

  predicate GivesBackTwice(w: Worker) {
    w.pc.DisposingAgain? || w.pc == Finished(Refused)
  }

  lemma GivesBackTwiceAfterDisposal(s: Sys, v: nat, o: Outcome, w: nat)
    requires Accounted(s) && Enabled(s, Disposes(v, o)) && w < |s.workers|
    ensures GivesBackTwice(DisposeStep(s, v, o).workers[w])
       <==> GivesBackTwice(s.workers[w]) || (Slips(s, Disposes(v, o)) && v == w)
  {
    DisposalIsAccepted(s, v, o);
  }

  lemma GivesBackTwiceAfterStep(s: Sys, e: Event, w: nat)
    requires Accounted(s) && Enabled(s, e) && w < |s.workers|
    ensures GivesBackTwice(Step(s, e).workers[w]) <==> GivesBackTwice(s.workers[w]) || (Slips(s, e) && e.worker == w)
  {
    if e.Disposes? {
      GivesBackTwiceAfterDisposal(s, e.worker, e.outcome, w);
    } else if e.DisposesAgain? {
      DisposeAgainIsRefused(s, e.worker);
    } else {
      OthersGiveBackOnce(s, e, w);
    }
  }

  lemma OthersGiveBackOnce(s: Sys, e: Event, w: nat)
    requires Enabled(s, e) && w < |s.workers| && !e.Disposes? && !e.DisposesAgain?
    ensures GivesBackTwice(Step(s, e).workers[w]) <==> GivesBackTwice(s.workers[w])
  {
  }

  /** One of the first `k` events was such a slip of this worker. */
  predicate SlippedBefore(states: seq<Sys>, events: seq<Event>, k: nat, w: nat)
    requires k <= |events| <= |states|
  {
    exists i :: 0 <= i < k && Slips(states[i], events[i]) && events[i].worker == w
  }

  lemma SlippedNext(states: seq<Sys>, events: seq<Event>, k: nat, w: nat)
    requires k < |events| <= |states|
    ensures SlippedBefore(states, events, k + 1, w)
       <==> SlippedBefore(states, events, k, w) || (Slips(states[k], events[k]) && events[k].worker == w)
  {
    if SlippedBefore(states, events, k, w) {
      var i :| 0 <= i < k && Slips(states[i], events[i]) && events[i].worker == w;
      assert Slips(states[i], events[i]) && events[i].worker == w;
    }
  }

  /**
   * In every run, the pool refuses a worker's give-back, or is about to, exactly when a quarantine of that worker
   * inside the attempt's `try` raised after its critical section.
   */
  lemma {:induction false} RefusedIffQuarantineSlipped(states: seq<Sys>, events: seq<Event>, k: nat, w: nat)
    requires Run(states, events) && k < |states| && w < |states[0].workers|
    ensures |states[k].workers| == |states[0].workers|
    ensures GivesBackTwice(states[k].workers[w]) <==> SlippedBefore(states, events, k, w)
  {
    if k == 0 {
      assert states[0].workers[w] in states[0].workers;
    } else {
      RefusedIffQuarantineSlipped(states, events, k - 1, w);
      EveryRunIsAccounted(states, events, k - 1);
      assert Enabled(states[k - 1], events[k - 1]);
      GivesBackTwiceAfterStep(states[k - 1], events[k - 1], w);
      SlippedNext(states, events, k - 1, w);
    }
  }

  // ----- attempts -----

  /** A failed attempt of this worker is on record. */
  predicate ReportsBy(e: Event, w: nat) { e.Reports? && e.worker == w && e.outcome == Succeeds }

  /** How many of the first `k` events were failed attempts of this worker put on record. */
  function FailedAttempts(events: seq<Event>, k: nat, w: nat): nat
    requires k <= |events|
  {
    if k == 0 then 0 else FailedAttempts(events, k - 1, w) + (if ReportsBy(events[k - 1], w) then 1 else 0)
  }

  /** Where a worker stands in its attempts after `failed` of them. */
  predicate InAttempt(w: Worker, failed: nat, maxAttempts: nat) {
    && (!w.pc.Finished? ==> w.attempt == failed + 1 <= maxAttempts)
    && (w.pc == Finished(Exhausted) ==> failed == maxAttempts)
    && (w.pc.Finished? && w.pc != Finished(Exhausted) ==> failed < maxAttempts)
  }

  lemma InAttemptAfterStep(s: Sys, e: Event, w: nat, failed: nat)
    requires Enabled(s, e) && w < |s.workers| && InAttempt(s.workers[w], failed, s.maxAttempts)
    ensures |Step(s, e).workers| == |s.workers| && Step(s, e).maxAttempts == s.maxAttempts
    ensures InAttempt(Step(s, e).workers[w], failed + (if ReportsBy(e, w) then 1 else 0), s.maxAttempts)
  {
  }

  /**
   * In every run a worker that is not done is in the attempt after those it has put on record as failed, and it gives
   * up exactly when all of them have: a failed attempt is followed by another as long as one is left.
   */
  lemma {:induction false} FailedAttemptsAreRetried(states: seq<Sys>, events: seq<Event>, k: nat, w: nat)
    requires Run(states, events) && k < |states| && w < |states[0].workers|
    ensures |states[k].workers| == |states[0].workers| && states[k].maxAttempts == states[0].maxAttempts
    ensures !states[k].workers[w].pc.Finished? ==>
      states[k].workers[w].attempt == FailedAttempts(events, k, w) + 1 <= states[0].maxAttempts
    ensures states[k].workers[w].pc == Finished(Exhausted) <==> FailedAttempts(events, k, w) == states[0].maxAttempts
    ensures InAttempt(states[k].workers[w], FailedAttempts(events, k, w), states[0].maxAttempts)
  {
    if k == 0 {
      assert states[0].workers[w] in states[0].workers;
    } else {
      FailedAttemptsAreRetried(states, events, k - 1, w);
      assert Enabled(states[k - 1], events[k - 1]);
      InAttemptAfterStep(states[k - 1], events[k - 1], w, FailedAttempts(events, k - 1, w));
    }
  }

  // ----- what becomes of the container -----

  /** An attempt so far: how many calls have succeeded since the lease, and what was raised last. */
  datatype Story = Story(calls: nat, raised: Option<Failure>)

  function StoryAfter(t: Story, e: Event, w: nat): Story {
    if e.Acquires? && e.worker == w then Story(0, None)
    else if e.Calls? && e.worker == w then
      if e.outcome == Succeeds then t.(calls := t.calls + 1) else t.(raised := Some(e.outcome.failure))
    else if e.CleansUp? && e.worker == w && e.outcome.Raise? then t.(raised := Some(e.outcome.failure))
    else t
  }

  function StoryOf(events: seq<Event>, k: nat, w: nat): Story
    requires k <= |events|
  {
    if k == 0 then Story(0, None) else StoryAfter(StoryOf(events, k - 1, w), events[k - 1], w)
  }

  /** The teardown after a scored rollout failed in a way that leaves the score valid. */
  predicate OnlyTeardownFailed(t: Story) { t.calls == 6 && t.raised in {Some(Infrastructure), Some(TimedOut)} }

  /**
   * What a worker does follows from what its calls did: health, controller, goal, initialization, screenshot, rollout
   * and teardown in this order; the container is released after seven successes or a failure of the model backend, and
   * set aside after any other; the episode is recorded when the rollout was scored and at most the teardown failed.
   */
  predicate Follows(pc: Pc, t: Story) {
    match pc
    case Working(_, stage, initialized) =>
      && t.raised == None && (initialized <==> t.calls >= 4)
      && t.calls == (match stage
           case Health => 0 case Controller => 1 case Goal => 2 case TaskInit => 3
           case FirstScreenshot => 4 case Rollout => 5 case TearDown => 6)
    case CleaningUp(_, failure) => t.raised == Some(failure) && failure != Unexpected && 4 <= t.calls <= 5
    case Disposing(_, disposition, next) =>
      && (disposition == ToRelease <==> t.raised in {None, Some(ModelBackend)})
      && (next == Record <==> t.raised == None || OnlyTeardownFailed(t))
      && (next == Reraise <==> t.raised == Some(Unexpected))
      && (t.raised == None ==> t.calls == 7)
    case DisposingAgain(_) => OnlyTeardownFailed(t)
    case Recording => (t.raised == None && t.calls == 7) || OnlyTeardownFailed(t)
    case Finished(Scored) => (t.raised == None && t.calls == 7) || OnlyTeardownFailed(t)
    case _ => true
  }

  lemma FollowsAfterDisposal(s: Sys, v: nat, o: Outcome, w: nat, t: Story)
    requires Accounted(s) && Enabled(s, Disposes(v, o)) && w < |s.workers| && Follows(s.workers[w].pc, t)
    ensures Follows(DisposeStep(s, v, o).workers[w].pc, t)
  {
    DisposalIsAccepted(s, v, o);
  }

  lemma FollowsAfterOwnStep(s: Sys, e: Event, w: nat, t: Story)
    requires Enabled(s, e) && Actor(e) == Some(w) && !e.Disposes? && Follows(s.workers[w].pc, t)
    ensures w < |s.workers| == |Step(s, e).workers| && Follows(Step(s, e).workers[w].pc, StoryAfter(t, e, w))
  {
  }

  lemma FollowsAfterStep(s: Sys, e: Event, w: nat, t: Story)
    requires Accounted(s) && Enabled(s, e) && w < |s.workers| && Follows(s.workers[w].pc, t)
    ensures |Step(s, e).workers| == |s.workers| && Follows(Step(s, e).workers[w].pc, StoryAfter(t, e, w))
  {
    if e.Disposes? {
      FollowsAfterDisposal(s, e.worker, e.outcome, w, t);
    } else if Actor(e) == Some(w) {
      FollowsAfterOwnStep(s, e, w, t);
    } else if Actor(e).Some? {
      OnlyTheActorMoves(s, e, Actor(e).value);
    }
  }

  /** In every run. */
  lemma {:induction false} WorkersFollowTheirCalls(states: seq<Sys>, events: seq<Event>, k: nat, w: nat)
    requires Run(states, events) && k < |states| && w < |states[0].workers|
    ensures |states[k].workers| == |states[0].workers|
    ensures Follows(states[k].workers[w].pc, StoryOf(events, k, w))
  {
    if k == 0 {
      assert states[0].workers[w] in states[0].workers;
    } else {
      WorkersFollowTheirCalls(states, events, k - 1, w);
      EveryRunIsAccounted(states, events, k - 1);
      assert Enabled(states[k - 1], events[k - 1]);
      FollowsAfterStep(states[k - 1], events[k - 1], w, StoryOf(events, k - 1, w));
    }
  }

  // ----- how a job ends -----

  predicate ScoresBy(e: Event, w: nat) { e.Records? && e.worker == w && e.outcome == Succeeds }

  /** An exception nobody handles: an unexpected one, or one raised while giving back after a failure or writing a record. */
  predicate AbortsBy(e: Event, w: nat, t: Story) {
    || (e.Reports? && e.worker == w && e.outcome.Raise?)
    || (e.Records? && e.worker == w && e.outcome == Raise(Unexpected))
    || (e.Disposes? && e.worker == w && t.raised == Some(Unexpected))
    || (e.Disposes? && e.worker == w && e.outcome.Raise? && t.raised != None && !OnlyTeardownFailed(t))
  }

  predicate ScoredBefore(events: seq<Event>, k: nat, w: nat)
    requires k <= |events|
  {
    exists i :: 0 <= i < k && ScoresBy(events[i], w)
  }

  predicate AbortedBefore(events: seq<Event>, k: nat, w: nat)
    requires k <= |events|
  {
    exists i :: 0 <= i < k && AbortsBy(events[i], w, StoryOf(events, i, w))
  }

  lemma ScoredNext(events: seq<Event>, k: nat, w: nat)
    requires k < |events|
    ensures ScoredBefore(events, k + 1, w) <==> ScoredBefore(events, k, w) || ScoresBy(events[k], w)
  {
    if ScoredBefore(events, k, w) {
      var i :| 0 <= i < k && ScoresBy(events[i], w);
      assert ScoresBy(events[i], w);
    }
  }

  lemma AbortedNext(events: seq<Event>, k: nat, w: nat)
    requires k < |events|
    ensures AbortedBefore(events, k + 1, w) <==> AbortedBefore(events, k, w) || AbortsBy(events[k], w, StoryOf(events, k, w))
  {
    if AbortedBefore(events, k, w) {
      var i :| 0 <= i < k && AbortsBy(events[i], w, StoryOf(events, i, w));
      assert AbortsBy(events[i], w, StoryOf(events, i, w));
    }
  }

  /** The result a step of the worker gives it, given how it got there. */
  predicate EndsRight(before: Pc, after: Pc, e: Event, w: nat, t: Story) {
    && (after == Finished(Scored) <==> before == Finished(Scored) || ScoresBy(e, w))
    && (after == Finished(Aborted) <==> before == Finished(Aborted) || AbortsBy(e, w, t))
  }

  lemma DisposalEndsRight(s: Sys, v: nat, o: Outcome, w: nat, t: Story)
    requires Accounted(s) && Enabled(s, Disposes(v, o)) && w < |s.workers| && Follows(s.workers[w].pc, t)
    ensures EndsRight(s.workers[w].pc, DisposeStep(s, v, o).workers[w].pc, Disposes(v, o), w, t)
  {
    DisposalIsAccepted(s, v, o);
  }

  lemma OtherStepsEndRight(s: Sys, e: Event, w: nat, t: Story)
    requires Enabled(s, e) && w < |s.workers| && Follows(s.workers[w].pc, t) && !e.Disposes? && !e.DisposesAgain?
    ensures |Step(s, e).workers| == |s.workers| && EndsRight(s.workers[w].pc, Step(s, e).workers[w].pc, e, w, t)
  {
  }

  lemma StepEndsRight(s: Sys, e: Event, w: nat, t: Story)
    requires Accounted(s) && Enabled(s, e) && w < |s.workers| && Follows(s.workers[w].pc, t)
    ensures |Step(s, e).workers| == |s.workers| && EndsRight(s.workers[w].pc, Step(s, e).workers[w].pc, e, w, t)
  {
    if e.Disposes? {
      DisposalEndsRight(s, e.worker, e.outcome, w, t);
    } else if e.DisposesAgain? {
      DisposeAgainIsRefused(s, e.worker);
    } else {
      OtherStepsEndRight(s, e, w, t);
    }
  }

  /**
   * In every run a job ends scored exactly when its episode was written, and aborted exactly when an exception came up
   * that nobody handles; with the other three endings characterised above, every other job goes on.
   */
  lemma {:induction false} JobsEndAsTheyShould(states: seq<Sys>, events: seq<Event>, k: nat, w: nat)
    requires Run(states, events) && k < |states| && w < |states[0].workers|
    ensures |states[k].workers| == |states[0].workers|
    ensures states[k].workers[w].pc == Finished(Scored) <==> ScoredBefore(events, k, w)
    ensures states[k].workers[w].pc == Finished(Aborted) <==> AbortedBefore(events, k, w)
  {
    if k == 0 {
      assert states[0].workers[w] in states[0].workers;
    } else {
      JobsEndAsTheyShould(states, events, k - 1, w);
      WorkersFollowTheirCalls(states, events, k - 1, w);
      EveryRunIsAccounted(states, events, k - 1);
      assert Enabled(states[k - 1], events[k - 1]);
      StepEndsRight(states[k - 1], events[k - 1], w, StoryOf(events, k - 1, w));
      ScoredNext(events, k - 1, w);
      AbortedNext(events, k - 1, w);
    }
  }

  // ----- two runs of one worker on one container -----

  /** The only worker holds the only container, whose token is 7. */
  function Alone(pc: Pc, dirty: set<string>): Sys {
    Sys([NewContainer("a", Active).(state := Leased, token := Some(7))], [Worker(1, pc)], dirty, {7}, multiset{}, 1)
  }

  function AloneAtStart(): Sys {
    Sys([NewContainer("a", Active)], [Worker(1, Acquiring)], {}, {}, multiset{}, 1)
  }

  const LEASE_A: Lease := Lease("a", 7, Active)

  lemma AloneAcquires()
    ensures Step(AloneAtStart(), Acquires(0, 7, false)) == Alone(Working(LEASE_A, Health, false), {})
  {
    var c := NewContainer("a", Active);
    EveryState(Available);
    forall roles, states ensures Tally([c], roles, states) == if Matches(c, roles, states) then 1 else 0 {
      assert [c][1..] == [];
    }
    assert FirstAvailable([c], Active) == 0;
    assert Decide([c]) == Grant(0);
  }

  lemma Extended(states: seq<Sys>, events: seq<Event>, e: Event, next: Sys)
    requires Run(states, events) && Enabled(states[|events|], e) && next == Step(states[|events|], e)
    ensures Run(states + [next], events + [e])
  {
    var longer, history := states + [next], events + [e];
    forall i | 0 <= i < |history| ensures Enabled(longer[i], history[i]) && longer[i + 1] == Step(longer[i], history[i]) {
      if i < |events| { assert Enabled(states[i], events[i]) && states[i + 1] == Step(states[i], events[i]); }
    }
  }

  lemma Succeeding(states: seq<Sys>, events: seq<Event>, stage: Stage, initialized: bool, dirty: set<string>)
    returns (longer: seq<Sys>, history: seq<Event>)
    requires Run(states, events) && states[|events|] == Alone(Working(LEASE_A, stage, initialized), dirty) && stage != TearDown
    requires forall i :: 0 <= i < |events| ==> !Escapes(events[i])
    ensures Run(longer, history) && forall i :: 0 <= i < |history| ==> !Escapes(history[i])
    ensures longer[|history|] == Alone(Working(LEASE_A, Next(stage), initialized || stage == TaskInit),
                                       if stage == TaskInit then dirty + {"a"} else dirty)
  {
    history := events + [Calls(0, Succeeds, false)];
    longer := states + [Step(states[|events|], Calls(0, Succeeds, false))];
    Extended(states, events, Calls(0, Succeeds, false), longer[|history|]);
    assert Alone(Working(LEASE_A, stage, initialized), dirty).workers[0 := Worker(1, longer[|history|].workers[0].pc)]
        == longer[|history|].workers;
  }

  /** The worker takes the container, and everything up to the first screenshot succeeds. */
  lemma RunUp() returns (states: seq<Sys>, events: seq<Event>)
    ensures Run(states, events) && states[|events|] == Alone(Working(LEASE_A, Rollout, true), {"a"})
    ensures forall i :: 0 <= i < |events| ==> !Escapes(events[i])
  {
    AloneAcquires();
    states, events := [AloneAtStart()], [];
    Extended(states, events, Acquires(0, 7, false), Alone(Working(LEASE_A, Health, false), {}));
    states, events := [AloneAtStart(), Alone(Working(LEASE_A, Health, false), {})], [Acquires(0, 7, false)];
    states, events := Succeeding(states, events, Health, false, {});
    states, events := Succeeding(states, events, Controller, false, {});
    states, events := Succeeding(states, events, Goal, false, {});
    states, events := Succeeding(states, events, TaskInit, false, {});
    states, events := Succeeding(states, events, FirstScreenshot, true, {"a"});
  }

  lemma RaisingSteps()
    ensures var s := Alone(Working(LEASE_A, Rollout, true), {"a"});
      && Step(s, Calls(0, Raise(TimedOut), false)) == Alone(CleaningUp(LEASE_A, TimedOut), {"a"})
      && Step(Alone(CleaningUp(LEASE_A, TimedOut), {"a"}), CleansUp(0, Raise(TimedOut), false))
      == Alone(Finished(LeftHolding(LEASE_A)), {"a"})
  {
  }

  /** A rollout that times out, and a teardown that times out too: the job is over and its container stays leased. */
  lemma CleanupLeaksTheLease() returns (states: seq<Sys>, events: seq<Event>)
    ensures Run(states, events) && AllFinished(states[|events|])
    ensures |events| > 0 && events[|events| - 1] == CleansUp(0, Raise(TimedOut), false)
    ensures states[|events|].containers == [NewContainer("a", Active).(state := Leased, token := Some(7))]
    ensures states[|events|].issued == {7} && states[|events|].returned[7] == 0
  {
    RaisingSteps();
    states, events := RunUp();
    var s := Alone(CleaningUp(LEASE_A, TimedOut), {"a"});
    Extended(states, events, Calls(0, Raise(TimedOut), false), s);
    states, events := states + [s], events + [Calls(0, Raise(TimedOut), false)];
    s := Alone(Finished(LeftHolding(LEASE_A)), {"a"});
    Extended(states, events, CleansUp(0, Raise(TimedOut), false), s);
    states, events := states + [s], events + [CleansUp(0, Raise(TimedOut), false)];
  }

  /** The container is out of service; its lease has been given back. */
  function AloneQuarantined(pc: Pc, dirty: set<string>): Sys {
    Sys([NewContainer("a", Active).(state := Quarantined, failures := 1, lastError := Some("attempt failed"))],
        [Worker(1, pc)], dirty, {7}, multiset{7}, 1)
  }

  lemma SlippingSteps()
    ensures Step(Alone(Working(LEASE_A, TearDown, true), {"a"}), Calls(0, Raise(TimedOut), false))
         == Alone(Disposing(LEASE_A, ToQuarantine, Record), {"a"})
    ensures Step(Alone(Disposing(LEASE_A, ToQuarantine, Record), {"a"}), Disposes(0, Raise(Unexpected)))
         == AloneQuarantined(DisposingAgain(LEASE_A), {"a"})
    ensures Step(AloneQuarantined(DisposingAgain(LEASE_A), {"a"}), DisposesAgain(0))
         == AloneQuarantined(Finished(Refused), {"a"})
  {
    assert Holder(Alone(Acquiring, {"a"}).containers, LEASE_A) == 0;
    assert Holder(AloneQuarantined(Acquiring, {"a"}).containers, LEASE_A) == 1;
  }

  /** A teardown that times out, and a quarantine that raises once it has taken effect: the scored job is lost. */
  lemma SecondGiveBackIsRefused() returns (states: seq<Sys>, events: seq<Event>)
    ensures Run(states, events) && |events| > 1 && Slips(states[|events| - 2], events[|events| - 2])
    ensures states[|events|] == AloneQuarantined(Finished(Refused), {"a"})
  {
    SlippingSteps();
    states, events := RunUp();
    states, events := Succeeding(states, events, Rollout, true, {"a"});
    var s := Alone(Disposing(LEASE_A, ToQuarantine, Record), {"a"});
    Extended(states, events, Calls(0, Raise(TimedOut), false), s);
    states, events := states + [s], events + [Calls(0, Raise(TimedOut), false)];
    s := AloneQuarantined(DisposingAgain(LEASE_A), {"a"});
    Extended(states, events, Disposes(0, Raise(Unexpected)), s);
    states, events := states + [s], events + [Disposes(0, Raise(Unexpected))];
    s := AloneQuarantined(Finished(Refused), {"a"});
    Extended(states, events, DisposesAgain(0), s);
    states, events := states + [s], events + [DisposesAgain(0)];
  }

  // ----- jobs end -----

  function Rank(pc: Pc): nat {
    match pc
    case Acquiring => 12
    case Working(_, stage, _) => (
      match stage
      case Health => 11 case Controller => 10 case Goal => 9 case TaskInit => 8
      case FirstScreenshot => 7 case Rollout => 6 case TearDown => 5)
    case CleaningUp(_, _) => 4
    case Disposing(_, _, _) => 3
    case DisposingAgain(_) => 2
    case Recording => 2
    case Reporting => 1
    case Finished(_) => 0
  }

  /** How many more steps a worker can take, waiting for a container aside. */
  function StepsLeft(w: Worker, maxAttempts: nat): nat
    requires w.attempt <= maxAttempts
  {
    (maxAttempts - w.attempt) * 13 + Rank(w.pc)
  }

  function Actor(e: Event): Option<nat> {
    match e
    case Acquires(w, _, _) => Some(w)
    case Calls(w, _, _) => Some(w)
    case CleansUp(w, _, _) => Some(w)
    case Disposes(w, _) => Some(w)
    case DisposesAgain(w) => Some(w)
    case Records(w, _) => Some(w)
    case Reports(w, _) => Some(w)
    case _ => None
  }

  /** A pass of `acquire` that only waits. */
  predicate Waits(s: Sys, e: Event) {
    e.Acquires? && !e.expired && Decide(s.containers) == Wait
  }

  /** Whatever raises, every step of a worker brings its job nearer to its end, except waiting for a container. */
  lemma EveryStepNearsTheEnd(s: Sys, e: Event, w: nat)
    requires Enabled(s, e) && Actor(e) == Some(w) && s.workers[w].attempt <= s.maxAttempts
    requires !Waits(s, e)
    ensures w < |s.workers| && Step(s, e).workers[w].attempt <= s.maxAttempts
    ensures StepsLeft(Step(s, e).workers[w], s.maxAttempts) < StepsLeft(s.workers[w], s.maxAttempts)
  {
  }

  predicate InAttempts(ws: seq<Worker>, maxAttempts: nat) {
    forall w {:trigger ws[w]} :: 0 <= w < |ws| ==> ws[w].attempt <= maxAttempts
  }

  /** What the first `n` workers have left. */
  function Remaining(ws: seq<Worker>, n: nat, maxAttempts: nat): nat
    requires n <= |ws| && InAttempts(ws, maxAttempts)
  {
    if n == 0 then 0 else Remaining(ws, n - 1, maxAttempts) + StepsLeft(ws[n - 1], maxAttempts)
  }

  lemma {:induction false} RemainingAfter(ws: seq<Worker>, vs: seq<Worker>, w: nat, n: nat, maxAttempts: nat)
    requires n <= |ws| == |vs| && w < |ws| && InAttempts(ws, maxAttempts) && InAttempts(vs, maxAttempts)
    requires forall v :: 0 <= v < |ws| && v != w ==> vs[v] == ws[v]
    ensures Remaining(vs, n, maxAttempts) + (if w < n then StepsLeft(ws[w], maxAttempts) else 0)
         == Remaining(ws, n, maxAttempts) + (if w < n then StepsLeft(vs[w], maxAttempts) else 0)
  {
    if n > 0 { RemainingAfter(ws, vs, w, n - 1, maxAttempts); }
  }

  function Work(s: Sys, e: Event): nat {
    if Actor(e).Some? && !Waits(s, e) then 1 else 0
  }

  /** How many of the first `k` steps of a run are a worker's, waiting aside. */
  ghost function WorkDone(states: seq<Sys>, events: seq<Event>, k: nat): nat
    requires k <= |events| < |states|
  {
    if k == 0 then 0
    else WorkDone(states, events, k - 1) + Work(states[k - 1], events[k - 1])
  }

  lemma StepUsesWork(s: Sys, e: Event)
    requires Enabled(s, e) && InAttempts(s.workers, s.maxAttempts)
    ensures var u := Step(s, e);
      && |u.workers| == |s.workers| && u.maxAttempts == s.maxAttempts && InAttempts(u.workers, s.maxAttempts)
      && Remaining(u.workers, |u.workers|, s.maxAttempts) + Work(s, e)
      <= Remaining(s.workers, |s.workers|, s.maxAttempts)
  {
    var u := Step(s, e);
    if Actor(e).Some? && !Waits(s, e) {
      var w := Actor(e).value;
      EveryStepNearsTheEnd(s, e, w);
      OnlyTheActorMoves(s, e, w);
      RemainingAfter(s.workers, u.workers, w, |s.workers|, s.maxAttempts);
    } else {
      assert u.workers == s.workers;
    }
  }

  lemma OnlyTheActorMoves(s: Sys, e: Event, w: nat)
    requires Enabled(s, e) && Actor(e) == Some(w)
    ensures |Step(s, e).workers| == |s.workers| && Step(s, e).maxAttempts == s.maxAttempts
    ensures forall v :: 0 <= v < |s.workers| && v != w ==> Step(s, e).workers[v] == s.workers[v]
  {
  }

  lemma {:induction false} WorkIsUsed(states: seq<Sys>, events: seq<Event>, k: nat)
    requires Run(states, events) && k < |states|
    ensures var (s, z) := (states[k], states[0]);
      && |s.workers| == |z.workers| && s.maxAttempts == z.maxAttempts
      && InAttempts(s.workers, s.maxAttempts)
      && WorkDone(states, events, k) + Remaining(s.workers, |s.workers|, s.maxAttempts)
      <= |z.workers| * 13 * z.maxAttempts
  {
    if k == 0 {
      var z := states[0];
      forall w | 0 <= w < |z.workers| ensures z.workers[w] == Worker(1, Acquiring) { assert z.workers[w] in z.workers; }
      RemainingAtStart(z.workers, |z.workers|, z.maxAttempts);
    } else {
      WorkIsUsed(states, events, k - 1);
      assert Enabled(states[k - 1], events[k - 1]);
      StepUsesWork(states[k - 1], events[k - 1]);
    }
  }

  lemma {:induction false} RemainingAtStart(ws: seq<Worker>, n: nat, maxAttempts: nat)
    requires maxAttempts >= 1 && n <= |ws| && forall w {:trigger ws[w]} :: 0 <= w < |ws| ==> ws[w] == Worker(1, Acquiring)
    ensures InAttempts(ws, maxAttempts) && Remaining(ws, n, maxAttempts) <= n * 13 * maxAttempts
  {
    if n > 0 {
      RemainingAtStart(ws, n - 1, maxAttempts);
      assert (n - 1) * 13 * maxAttempts + 13 * maxAttempts == n * 13 * maxAttempts;
    }
  }

  /** In every run, the workers together take at most thirteen steps per job and attempt, waiting for containers aside. */
  lemma RunsDoBoundedWork(states: seq<Sys>, events: seq<Event>)
    requires Run(states, events)
    ensures WorkDone(states, events, |events|) <= |states[0].workers| * 13 * states[0].maxAttempts
  {
    WorkIsUsed(states, events, |events|);
  }
}
