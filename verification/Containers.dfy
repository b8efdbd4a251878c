/** Container states, the counts both pools take over them, and the decision one pass of `acquire` makes. */
module Containers {

  datatype Option<+T> = None | Some(value: T)

  datatype Role = Active | Spare

  datatype State = Available | Leased | Quarantined | Recovering | Retired

  type Token = nat

  datatype Container = Container(
    endpoint: string,
    role: Role,
    state: State,
    token: Option<Token>,
    failures: nat,
    lastError: Option<string>)

  datatype Lease = Lease(endpoint: string, token: Token, role: Role)

  /** What one pass of the `acquire` loop does while it holds the lock. */
  datatype Decision = Grant(index: nat) | NoCapacity | Wait

  /** Which waiters on the condition variable an operation wakes. */
  datatype Wake = WakeNone | WakeOne | WakeAll

  const ROLES: set<Role> := {Active, Spare}
  const STATES: set<State> := {Available, Leased, Quarantined, Recovering, Retired}
  const IN_SERVICE: set<State> := {Available, Leased}
  const OUT_OF_SERVICE: set<State> := {Quarantined, Recovering, Retired}

  lemma EveryState(s: State)
    ensures s in STATES
  {
    match s { case Available => case Leased => case Quarantined => case Recovering => case Retired => }
  }

  // ----- counts -----

  predicate Matches(c: Container, roles: set<Role>, states: set<State>) {
    c.role in roles && c.state in states
  }

  function Tally(cs: seq<Container>, roles: set<Role>, states: set<State>): nat {
    if cs == [] then 0
    else (if Matches(cs[0], roles, states) then 1 else 0) + Tally(cs[1..], roles, states)
  }

  /** The configured number of active containers. */
  function Capacity(cs: seq<Container>): nat { Tally(cs, {Active}, STATES) }

  function Serviceable(cs: seq<Container>): nat { Tally(cs, ROLES, IN_SERVICE) }

  function LeasedTotal(cs: seq<Container>): nat { Tally(cs, ROLES, {Leased}) }

  function RecoveringTotal(cs: seq<Container>): nat { Tally(cs, ROLES, {Recovering}) }

  function UnavailableActive(cs: seq<Container>): nat { Tally(cs, {Active}, OUT_OF_SERVICE) }

  function LeasedSpares(cs: seq<Container>): nat { Tally(cs, {Spare}, {Leased}) }

  lemma {:induction false} TallyAppend(a: seq<Container>, b: seq<Container>, roles: set<Role>, states: set<State>)
    ensures Tally(a + b, roles, states) == Tally(a, roles, states) + Tally(b, roles, states)
  {
    if a == [] {
      assert a + b == b;
    } else {
      assert (a + b)[1..] == a[1..] + b;
      TallyAppend(a[1..], b, roles, states);
    }
  }

  /** Replacing one container moves a count by that container's own difference. */
  lemma {:induction false} TallyUpdate(cs: seq<Container>, i: nat, c: Container, roles: set<Role>, states: set<State>)
    requires i < |cs|
    ensures Tally(cs[i := c], roles, states) + (if Matches(cs[i], roles, states) then 1 else 0)
         == Tally(cs, roles, states) + (if Matches(c, roles, states) then 1 else 0)
  {
    if i == 0 {
      assert cs[0 := c][1..] == cs[1..];
    } else {
      assert cs[i := c][1..] == cs[1..][i - 1 := c];
      TallyUpdate(cs[1..], i - 1, c, roles, states);
    }
  }

  lemma {:induction false} TallySplitStates(cs: seq<Container>, roles: set<Role>, s: set<State>, t: set<State>)
    requires s !! t
    ensures Tally(cs, roles, s + t) == Tally(cs, roles, s) + Tally(cs, roles, t)
  {
    if cs != [] { TallySplitStates(cs[1..], roles, s, t); }
  }

  lemma {:induction false} TallySplitRoles(cs: seq<Container>, r: set<Role>, q: set<Role>, states: set<State>)
    requires r !! q
    ensures Tally(cs, r + q, states) == Tally(cs, r, states) + Tally(cs, q, states)
  {
    if cs != [] { TallySplitRoles(cs[1..], r, q, states); }
  }

  /** A count is positive exactly when some container matches. */
  lemma {:induction false} TallyPositive(cs: seq<Container>, roles: set<Role>, states: set<State>)
    ensures Tally(cs, roles, states) > 0 <==> exists i :: 0 <= i < |cs| && Matches(cs[i], roles, states)
  {
    if cs != [] {
      TallyPositive(cs[1..], roles, states);
      if Tally(cs[1..], roles, states) > 0 {
        var i :| 0 <= i < |cs[1..]| && Matches(cs[1..][i], roles, states);
        assert Matches(cs[i + 1], roles, states);
      }
      if exists i :: 0 <= i < |cs| && Matches(cs[i], roles, states) {
        var i :| 0 <= i < |cs| && Matches(cs[i], roles, states);
        if i > 0 { assert Matches(cs[1..][i - 1], roles, states); }
      }
    }
  }

  // ----- one pass of acquire -----

  /** The first available container of a role, or the length when there is none. */
  function FirstAvailable(cs: seq<Container>, role: Role): (i: nat)
    ensures i <= |cs|
    ensures i < |cs| ==> cs[i].role == role && cs[i].state == Available
    ensures forall j :: 0 <= j < i ==> !(cs[j].role == role && cs[j].state == Available)
  {
    if cs == [] then 0
    else if cs[0].role == role && cs[0].state == Available then 0
    else 1 + FirstAvailable(cs[1..], role)
  }

  /** The branches of the `acquire` loop, in the order the code takes them. */
  function Decide(cs: seq<Container>): Decision {
    if Serviceable(cs) < Capacity(cs) && RecoveringTotal(cs) == 0 then NoCapacity
    else if Serviceable(cs) >= Capacity(cs) && LeasedTotal(cs) < Capacity(cs) && FirstAvailable(cs, Active) < |cs| then
      Grant(FirstAvailable(cs, Active))
    else if Serviceable(cs) >= Capacity(cs) && LeasedTotal(cs) < Capacity(cs)
         && LeasedSpares(cs) < UnavailableActive(cs) && FirstAvailable(cs, Spare) < |cs| then
      Grant(FirstAvailable(cs, Spare))
    else Wait
  }

  predicate Grantable(cs: seq<Container>) {
    Serviceable(cs) >= Capacity(cs) && LeasedTotal(cs) < Capacity(cs)
  }

  predicate OutOfCapacity(cs: seq<Container>) {
    Serviceable(cs) < Capacity(cs) && RecoveringTotal(cs) == 0
  }

  /** How the counts of one acquire pass hang together. */
  lemma CountsAddUp(cs: seq<Container>)
    ensures Serviceable(cs) == Tally(cs, ROLES, {Available}) + LeasedTotal(cs)
    ensures LeasedTotal(cs) == Tally(cs, {Active}, {Leased}) + LeasedSpares(cs)
    ensures Tally(cs, ROLES, {Available}) == Tally(cs, {Active}, {Available}) + Tally(cs, {Spare}, {Available})
    ensures Capacity(cs) == Tally(cs, {Active}, {Available}) + Tally(cs, {Active}, {Leased}) + UnavailableActive(cs)
  {
    assert IN_SERVICE == {Available} + {Leased};
    assert ROLES == {Active} + {Spare};
    assert STATES == IN_SERVICE + OUT_OF_SERVICE;
    TallySplitStates(cs, ROLES, {Available}, {Leased});
    TallySplitStates(cs, {Active}, {Available}, {Leased});
    TallySplitStates(cs, {Active}, IN_SERVICE, OUT_OF_SERVICE);
    TallySplitRoles(cs, {Active}, {Spare}, {Leased});
    TallySplitRoles(cs, {Active}, {Spare}, {Available});
  }

  lemma NoneAvailable(cs: seq<Container>, role: Role)
    ensures FirstAvailable(cs, role) == |cs| <==> Tally(cs, {role}, {Available}) == 0
  {
    TallyPositive(cs, {role}, {Available});
    var k := FirstAvailable(cs, role);
    if k < |cs| {
      assert Matches(cs[k], {role}, {Available});
    } else {
      assert forall i :: 0 <= i < |cs| ==> !Matches(cs[i], {role}, {Available});
    }
  }

  /**
   * The spare gate never bites by itself: once no active container is available, fewer spares are leased than
   * actives are out of service, and some spare is available.
   */
  lemma SpareGateFollows(cs: seq<Container>)
    requires Grantable(cs)
    requires FirstAvailable(cs, Active) == |cs|
    ensures LeasedSpares(cs) < UnavailableActive(cs)
    ensures FirstAvailable(cs, Spare) < |cs|
  {
    CountsAddUp(cs);
    NoneAvailable(cs, Active);
    NoneAvailable(cs, Spare);
  }

  /**
   * `acquire` is work-conserving: it grants exactly when enough containers are in service and fewer than the
   * configured number are leased, fails exactly when service cannot come back, and otherwise waits.
   */
  lemma AcquireIsWorkConserving(cs: seq<Container>)
    ensures Decide(cs).Grant? <==> Grantable(cs)
    ensures Decide(cs).NoCapacity? <==> OutOfCapacity(cs)
    ensures Decide(cs).Wait? <==> !Grantable(cs) && !OutOfCapacity(cs)
  {
    if Grantable(cs) && FirstAvailable(cs, Active) == |cs| {
      SpareGateFollows(cs);
    }
  }

  /** A granted container is available; a spare is granted only when every active container is busy or down. */
  lemma GrantPrefersActive(cs: seq<Container>)
    requires Decide(cs).Grant?
    ensures var i := Decide(cs).index;
      && i < |cs| && cs[i].state == Available
      && (cs[i].role == Spare ==> forall j :: 0 <= j < |cs| && cs[j].role == Active ==> cs[j].state != Available)
      && (forall j :: 0 <= j < i && cs[j].role == cs[i].role ==> cs[j].state != Available)
  {
  }

  /** How many more leases could be granted in a row from here. */
  function Grants(cs: seq<Container>): nat {
    if Grantable(cs) then Capacity(cs) - LeasedTotal(cs) else 0
  }

  // ----- changing one container -----

  function SetState(c: Container, state: State): Container {
    c.(state := state, token := None)
  }

  function LeaseOut(cs: seq<Container>, i: nat, token: Token): seq<Container>
    requires i < |cs|
  {
    cs[i := cs[i].(state := Leased, token := Some(token))]
  }

  /** The container a lease names and still owns; none when the lease is stale or foreign. */
  function Holder(cs: seq<Container>, lease: Lease): (i: nat)
    ensures i <= |cs|
    ensures i < |cs| ==> cs[i].endpoint == lease.endpoint && cs[i].state == Leased && cs[i].token == Some(lease.token)
  {
    var k := Find(cs, lease.endpoint);
    if k < |cs| && cs[k].state == Leased && cs[k].token == Some(lease.token) then k else |cs|
  }

  /** The position of an endpoint, or the length when the pool does not have it. */
  function Find(cs: seq<Container>, endpoint: string): (i: nat)
    ensures i <= |cs|
    ensures i < |cs| ==> cs[i].endpoint == endpoint
    ensures forall j :: 0 <= j < i ==> cs[j].endpoint != endpoint
  {
    if cs == [] then 0
    else if cs[0].endpoint == endpoint then 0
    else 1 + Find(cs[1..], endpoint)
  }

  lemma FindIs(cs: seq<Container>, endpoint: string, k: nat)
    requires UniqueEndpoints(cs) && k < |cs| && cs[k].endpoint == endpoint
    ensures Find(cs, endpoint) == k
  {
    assert Find(cs, endpoint) <= k;
  }

  predicate UniqueEndpoints(cs: seq<Container>) {
    forall i, j :: 0 <= i < j < |cs| ==> cs[i].endpoint != cs[j].endpoint
  }

  /** What a change of one container does to every count an acquire pass looks at. */
  lemma CountsAfterUpdate(cs: seq<Container>, i: nat, c: Container)
    requires i < |cs| && c.role == cs[i].role
    ensures Capacity(cs[i := c]) == Capacity(cs)
    ensures Serviceable(cs[i := c]) + (if cs[i].state in IN_SERVICE then 1 else 0)
         == Serviceable(cs) + (if c.state in IN_SERVICE then 1 else 0)
    ensures LeasedTotal(cs[i := c]) + (if cs[i].state == Leased then 1 else 0)
         == LeasedTotal(cs) + (if c.state == Leased then 1 else 0)
    ensures RecoveringTotal(cs[i := c]) + (if cs[i].state == Recovering then 1 else 0)
         == RecoveringTotal(cs) + (if c.state == Recovering then 1 else 0)
  {
    EveryState(c.state);
    EveryState(cs[i].state);
    TallyUpdate(cs, i, c, {Active}, STATES);
    TallyUpdate(cs, i, c, ROLES, IN_SERVICE);
    TallyUpdate(cs, i, c, ROLES, {Leased});
    TallyUpdate(cs, i, c, ROLES, {Recovering});
  }

  // ----- the container invariant -----

  function Live(cs: seq<Container>): set<Token> {
    set i | 0 <= i < |cs| && cs[i].token.Some? :: cs[i].token.value
  }

  /** The container invariant: a token exactly while leased, no token twice, never more leases than actives. */
  predicate Sound(cs: seq<Container>) {
    && UniqueEndpoints(cs)
    && (forall i :: 0 <= i < |cs| ==> (cs[i].state == Leased <==> cs[i].token.Some?))
    && (forall i, j :: 0 <= i < j < |cs| && cs[i].token.Some? ==> cs[i].token != cs[j].token)
    && LeasedTotal(cs) <= Capacity(cs)
  }

  lemma TokenIsLive(cs: seq<Container>, i: nat)
    requires i < |cs|
    ensures cs[i].token.Some? ==> cs[i].token.value in Live(cs)
  {
  }

  lemma FreshIsSound(cs: seq<Container>)
    requires UniqueEndpoints(cs) && forall c :: c in cs ==> c.token == None && c.state != Leased
    ensures Sound(cs) && Live(cs) == {}
  {
    assert forall i :: 0 <= i < |cs| ==> cs[i] in cs;
    TallyPositive(cs, ROLES, {Leased});
  }

  lemma LeaseOutKeepsSound(cs: seq<Container>, i: nat, token: Token)
    requires Sound(cs) && Decide(cs) == Grant(i) && token !in Live(cs)
    ensures i < |cs| && Sound(LeaseOut(cs, i, token))
    ensures Live(LeaseOut(cs, i, token)) == Live(cs) + {token}
    ensures Capacity(LeaseOut(cs, i, token)) == Capacity(cs)
  {
    AcquireIsWorkConserving(cs);
    var c := cs[i].(state := Leased, token := Some(token));
    CountsAfterUpdate(cs, i, c);
    var ds := LeaseOut(cs, i, token);
    assert ds[i].token.value == token;
    forall t | t in Live(cs) ensures t in Live(ds) {
      var j :| 0 <= j < |cs| && cs[j].token == Some(t);
      assert ds[j].token.value == t;
    }
    assert forall j :: 0 <= j < |cs| && cs[j].token.Some? ==> cs[j].token.value in Live(cs);
  }

  /** A container that changes without becoming leased keeps the invariant and takes only its own token away. */
  lemma IdleKeepsSound(cs: seq<Container>, i: nat, c: Container)
    requires Sound(cs) && i < |cs| && c.endpoint == cs[i].endpoint && c.role == cs[i].role
    requires c.state != Leased && c.token == None
    ensures Sound(cs[i := c])
    ensures Live(cs[i := c]) == Live(cs) - (if cs[i].token.Some? then {cs[i].token.value} else {})
  {
    CountsAfterUpdate(cs, i, c);
    var ds := cs[i := c];
    forall t | t in Live(cs) && Some(t) != cs[i].token ensures t in Live(ds) {
      var j :| 0 <= j < |cs| && cs[j].token == Some(t);
      assert ds[j].token.value == t;
    }
    forall t | t in Live(ds) ensures t in Live(cs) && Some(t) != cs[i].token {
      var j :| 0 <= j < |ds| && ds[j].token == Some(t);
      assert cs[j].token.value == t && j != i;
    }
  }

  lemma HolderIsLive(cs: seq<Container>, lease: Lease)
    ensures Holder(cs, lease) < |cs| ==> lease.token in Live(cs)
  {
    var i := Holder(cs, lease);
    if i < |cs| { assert cs[i].token.value == lease.token; }
  }

  // ----- what callers see -----

  /** Some container of this endpoint is leased under this token. */
  predicate Accepts(cs: seq<Container>, lease: Lease) {
    exists i :: 0 <= i < |cs| && cs[i].endpoint == lease.endpoint && cs[i].state == Leased && cs[i].token == Some(lease.token)
  }

  lemma AcceptsIffHeld(cs: seq<Container>, lease: Lease)
    requires UniqueEndpoints(cs)
    ensures Accepts(cs, lease) <==> Holder(cs, lease) < |cs|
  {
    if Accepts(cs, lease) {
      var i :| 0 <= i < |cs| && cs[i].endpoint == lease.endpoint && cs[i].state == Leased && cs[i].token == Some(lease.token);
      FindIs(cs, lease.endpoint, i);
    }
  }

  /** Nothing changed but the container of one endpoint, which kept its name and role. */
  predicate OnlyAt(cs: seq<Container>, ds: seq<Container>, endpoint: string) {
    |ds| == |cs| && forall i {:trigger ds[i]} :: 0 <= i < |cs| ==>
      && ds[i].endpoint == cs[i].endpoint && ds[i].role == cs[i].role
      && (cs[i].endpoint != endpoint ==> ds[i] == cs[i])
  }

  /** The container of an endpoint is there, in this state. */
  predicate InState(cs: seq<Container>, endpoint: string, state: State) {
    exists i :: 0 <= i < |cs| && cs[i].endpoint == endpoint && cs[i].state == state
  }

  lemma ChangeIsLocal(cs: seq<Container>, i: nat, c: Container)
    requires UniqueEndpoints(cs) && i < |cs| && c.endpoint == cs[i].endpoint && c.role == cs[i].role
    ensures OnlyAt(cs, cs[i := c], c.endpoint) && InState(cs[i := c], c.endpoint, c.state)
  {
    assert cs[i := c][i] == c;
  }

  /** A lease is over: its token is dead, the lease is refused, its container stands as said, the others as before. */
  predicate GivenBack(cs: seq<Container>, ds: seq<Container>, lease: Lease, state: State) {
    && OnlyAt(cs, ds, lease.endpoint) && InState(ds, lease.endpoint, state) && !Accepts(ds, lease)
    && lease.token in Live(cs) && Live(ds) == Live(cs) - {lease.token}
  }

  lemma GiveBackEndsLease(cs: seq<Container>, lease: Lease, c: Container)
    requires Sound(cs) && Holder(cs, lease) < |cs| && c.state != Leased && c.token == None
    requires c.endpoint == lease.endpoint && c.role == cs[Holder(cs, lease)].role
    ensures Sound(cs[Holder(cs, lease) := c]) && GivenBack(cs, cs[Holder(cs, lease) := c], lease, c.state)
  {
    var i := Holder(cs, lease);
    IdleKeepsSound(cs, i, c);
    HolderIsLive(cs, lease);
    ChangeIsLocal(cs, i, c);
    AcceptsIffHeld(cs[i := c], lease);
    HolderIsLive(cs[i := c], lease);
  }

  /** A lease begins on an available container: its token is live, the lease is accepted, the other containers stay. */
  predicate LeasedOut(cs: seq<Container>, ds: seq<Container>, lease: Lease) {
    && OnlyAt(cs, ds, lease.endpoint) && InState(cs, lease.endpoint, Available) && Accepts(ds, lease)
    && lease.token !in Live(cs) && Live(ds) == Live(cs) + {lease.token}
    && exists i :: 0 <= i < |ds| && ds[i].endpoint == lease.endpoint && ds[i].role == lease.role
  }

  lemma GrantBeginsLease(cs: seq<Container>, i: nat, token: Token)
    requires Sound(cs) && Decide(cs) == Grant(i) && token !in Live(cs)
    ensures i < |cs| && Sound(LeaseOut(cs, i, token))
    ensures LeasedOut(cs, LeaseOut(cs, i, token), Lease(cs[i].endpoint, token, cs[i].role))
    ensures cs[i].role == Spare ==> forall j :: 0 <= j < |cs| && cs[j].role == Active ==> cs[j].state != Available
  {
    LeaseOutKeepsSound(cs, i, token);
    GrantPrefersActive(cs);
    ChangeIsLocal(cs, i, cs[i].(state := Leased, token := Some(token)));
    assert LeaseOut(cs, i, token)[i].token == Some(token);
  }

  /** A container nobody leases was changed, and is not leased now: every lease stands as before. */
  predicate ChangedIdle(cs: seq<Container>, ds: seq<Container>, endpoint: string, state: State) {
    OnlyAt(cs, ds, endpoint) && InState(ds, endpoint, state) && !InState(cs, endpoint, Leased) && Live(ds) == Live(cs)
  }

  lemma IdleChangeIsLocal(cs: seq<Container>, i: nat, c: Container)
    requires Sound(cs) && i < |cs| && cs[i].state != Leased && c.endpoint == cs[i].endpoint && c.role == cs[i].role
    requires c.state != Leased && c.token == None
    ensures Sound(cs[i := c]) && ChangedIdle(cs, cs[i := c], c.endpoint, c.state)
  {
    IdleKeepsSound(cs, i, c);
    ChangeIsLocal(cs, i, c);
    assert forall j :: 0 <= j < |cs| && cs[j].endpoint == c.endpoint ==> j == i;
  }

  /** What is on record of an endpoint: so many more failures, and this last error. */
  predicate Noted(cs: seq<Container>, ds: seq<Container>, endpoint: string, more: nat, error: Option<string>) {
    |ds| == |cs| && forall i {:trigger ds[i]} :: 0 <= i < |ds| && ds[i].endpoint == endpoint ==>
      ds[i].failures == cs[i].failures + more && ds[i].lastError == error
  }

  /** No failure count and no last error changes. */
  predicate RecordsStand(cs: seq<Container>, ds: seq<Container>) {
    |ds| == |cs| && forall i {:trigger ds[i]} :: 0 <= i < |ds| ==>
      ds[i].failures == cs[i].failures && ds[i].lastError == cs[i].lastError
  }

  lemma NotedAt(cs: seq<Container>, i: nat, c: Container, more: nat)
    requires UniqueEndpoints(cs) && i < |cs| && c.endpoint == cs[i].endpoint && c.failures == cs[i].failures + more
    ensures Noted(cs, cs[i := c], c.endpoint, more, c.lastError)
  {
    assert forall j :: 0 <= j < |cs| && cs[j].endpoint == c.endpoint ==> j == i;
  }

  predicate Known(cs: seq<Container>, endpoint: string) { exists i :: 0 <= i < |cs| && cs[i].endpoint == endpoint }

  lemma FindFindsKnown(cs: seq<Container>, endpoint: string, state: State)
    requires UniqueEndpoints(cs)
    ensures Known(cs, endpoint) <==> Find(cs, endpoint) < |cs|
    ensures InState(cs, endpoint, state) <==> Find(cs, endpoint) < |cs| && cs[Find(cs, endpoint)].state == state
  {
    if InState(cs, endpoint, state) {
      var i :| 0 <= i < |cs| && cs[i].endpoint == endpoint && cs[i].state == state;
      FindIs(cs, endpoint, i);
    }
  }

  lemma HolderSurvives(cs: seq<Container>, i: nat, c: Container, lease: Lease)
    requires UniqueEndpoints(cs) && i < |cs| && c.endpoint == cs[i].endpoint
    requires Holder(cs, lease) < |cs| && Holder(cs, lease) != i
    ensures Holder(cs[i := c], lease) == Holder(cs, lease)
  {
    FindIs(cs[i := c], lease.endpoint, Holder(cs, lease));
  }

  // ----- building the pool -----

  /** `str.rstrip("/")`. */
  function RStrip(s: string): string {
    if s != "" && s[|s| - 1] == '/' then RStrip(s[..|s| - 1]) else s
  }

  function NewContainer(endpoint: string, role: Role): Container {
    Container(endpoint, role, Available, None, 0, None)
  }

  /** Dictionary assignment: a known key keeps its place and takes the new value. */
  function Put(cs: seq<Container>, c: Container): seq<Container> {
    var k := Find(cs, c.endpoint);
    if k < |cs| then cs[k := c] else cs + [c]
  }

  /** The dictionary both constructors build from the first `n` endpoints. */
  function Built(endpoints: seq<string>, active: nat, n: nat): seq<Container>
    requires n <= |endpoints|
  {
    if n == 0 then []
    else Put(Built(endpoints, active, n - 1),
             NewContainer(RStrip(endpoints[n - 1]), if n - 1 < active then Active else Spare))
  }

  predicate NormalizedDistinct(endpoints: seq<string>) {
    forall i, j :: 0 <= i < j < |endpoints| ==> RStrip(endpoints[i]) != RStrip(endpoints[j])
  }

  predicate RawDistinct(endpoints: seq<string>) {
    forall i, j :: 0 <= i < j < |endpoints| ==> endpoints[i] != endpoints[j]
  }

  predicate Has(cs: seq<Container>, endpoint: string) {
    Find(cs, endpoint) < |cs|
  }

  lemma {:induction false} HasIffMember(cs: seq<Container>, endpoint: string)
    ensures Has(cs, endpoint) <==> exists i :: 0 <= i < |cs| && cs[i].endpoint == endpoint
  {
    if Has(cs, endpoint) { assert cs[Find(cs, endpoint)].endpoint == endpoint; }
  }

  /** One dictionary assignment keeps keys unique and adds exactly its own key. */
  lemma PutKeepsKeys(cs: seq<Container>, c: Container, endpoint: string)
    requires UniqueEndpoints(cs)
    ensures UniqueEndpoints(Put(cs, c))
    ensures Has(Put(cs, c), endpoint) <==> Has(cs, endpoint) || endpoint == c.endpoint
  {
    var k := Find(cs, c.endpoint);
    HasIffMember(cs, endpoint);
    HasIffMember(Put(cs, c), endpoint);
    assert forall i :: 0 <= i < |cs| ==> Put(cs, c)[i].endpoint == cs[i].endpoint;
    if endpoint == c.endpoint { assert Put(cs, c)[k] == c; }
    if Has(cs, endpoint) { assert Put(cs, c)[Find(cs, endpoint)].endpoint == endpoint; }
  }

  /** One of the first `n` endpoints has this key. */
  predicate KeyAmong(endpoints: seq<string>, n: nat, key: string)
    requires n <= |endpoints|
  {
    exists i :: 0 <= i < n && RStrip(endpoints[i]) == key
  }

  lemma KeyAmongNext(endpoints: seq<string>, n: nat, key: string)
    requires 0 < n <= |endpoints|
    ensures KeyAmong(endpoints, n, key) <==> KeyAmong(endpoints, n - 1, key) || RStrip(endpoints[n - 1]) == key
  {
    if KeyAmong(endpoints, n - 1, key) {
      var i :| 0 <= i < n - 1 && RStrip(endpoints[i]) == key;
      assert RStrip(endpoints[i]) == key;
    }
  }

  lemma {:induction false} BuiltKeys(endpoints: seq<string>, active: nat, n: nat, endpoint: string)
    requires n <= |endpoints|
    ensures UniqueEndpoints(Built(endpoints, active, n))
    ensures Has(Built(endpoints, active, n), endpoint) <==> KeyAmong(endpoints, n, endpoint)
  {
    if n > 0 {
      BuiltKeys(endpoints, active, n - 1, endpoint);
      KeyAmongNext(endpoints, n, endpoint);
      var c := NewContainer(RStrip(endpoints[n - 1]), if n - 1 < active then Active else Spare);
      PutKeepsKeys(Built(endpoints, active, n - 1), c, endpoint);
    }
  }

  lemma BuiltShape(endpoints: seq<string>, active: nat, n: nat)
    requires n <= |endpoints|
    ensures |Built(endpoints, active, n)| <= n
    ensures NormalizedDistinct(endpoints[..n]) ==> |Built(endpoints, active, n)| == n
    ensures NormalizedDistinct(endpoints[..n]) ==> forall i :: 0 <= i < n ==>
      Built(endpoints, active, n)[i] == NewContainer(RStrip(endpoints[i]), if i < active then Active else Spare)
    ensures !NormalizedDistinct(endpoints[..n]) ==> |Built(endpoints, active, n)| < n
  {
    BuiltLength(endpoints, active, n);
    if NormalizedDistinct(endpoints[..n]) { BuiltInOrder(endpoints, active, n); }
  }

  lemma {:induction false} BuiltLength(endpoints: seq<string>, active: nat, n: nat)
    requires n <= |endpoints|
    ensures |Built(endpoints, active, n)| <= n
    ensures |Built(endpoints, active, n)| == n <==> NormalizedDistinct(endpoints[..n])
  {
    if n > 0 {
      BuiltLength(endpoints, active, n - 1);
      DistinctGrows(endpoints, active, n);
      PutShape(Built(endpoints, active, n - 1), NewContainer(RStrip(endpoints[n - 1]), if n - 1 < active then Active else Spare));
    }
  }

  lemma {:induction false} BuiltInOrder(endpoints: seq<string>, active: nat, n: nat)
    requires n <= |endpoints| && NormalizedDistinct(endpoints[..n])
    ensures |Built(endpoints, active, n)| == n
    ensures forall i {:trigger Built(endpoints, active, n)[i]} :: 0 <= i < n ==>
      Built(endpoints, active, n)[i] == NewContainer(RStrip(endpoints[i]), if i < active then Active else Spare)
  {
    if n > 0 {
      DistinctGrows(endpoints, active, n);
      BuiltInOrder(endpoints, active, n - 1);
      PutShape(Built(endpoints, active, n - 1), NewContainer(RStrip(endpoints[n - 1]), if n - 1 < active then Active else Spare));
    }
  }

  /** Nothing is leased in a pool just built. */
  lemma {:induction false} BuiltIsFresh(endpoints: seq<string>, active: nat, n: nat)
    requires n <= |endpoints|
    ensures UniqueEndpoints(Built(endpoints, active, n))
    ensures forall c :: c in Built(endpoints, active, n) ==> c.token == None && c.state != Leased
  {
    BuiltKeys(endpoints, active, n, "");
    if n > 0 { BuiltIsFresh(endpoints, active, n - 1); }
  }

  lemma PutShape(cs: seq<Container>, c: Container)
    ensures Put(cs, c) == if Has(cs, c.endpoint) then cs[Find(cs, c.endpoint) := c] else cs + [c]
    ensures |Put(cs, c)| == |cs| + if Has(cs, c.endpoint) then 0 else 1
  {
  }

  /** One more endpoint keeps them distinct exactly when its key is new. */
  lemma DistinctGrows(endpoints: seq<string>, active: nat, n: nat)
    requires 0 < n <= |endpoints|
    ensures NormalizedDistinct(endpoints[..n])
       <==> NormalizedDistinct(endpoints[..n - 1]) && !Has(Built(endpoints, active, n - 1), RStrip(endpoints[n - 1]))
  {
    BuiltKeys(endpoints, active, n - 1, RStrip(endpoints[n - 1]));
    DistinctNext(endpoints, n);
  }

  lemma DistinctNext(endpoints: seq<string>, n: nat)
    requires 0 < n <= |endpoints|
    ensures NormalizedDistinct(endpoints[..n])
       <==> NormalizedDistinct(endpoints[..n - 1]) && !KeyAmong(endpoints, n - 1, RStrip(endpoints[n - 1]))
  {
    var shorter, longer, key := endpoints[..n - 1], endpoints[..n], RStrip(endpoints[n - 1]);
    assert forall i :: 0 <= i < n - 1 ==> shorter[i] == longer[i] == endpoints[i];
    if KeyAmong(endpoints, n - 1, key) {
      var i :| 0 <= i < n - 1 && RStrip(endpoints[i]) == key;
      assert RStrip(longer[i]) == RStrip(longer[n - 1]);
    }
  }

  /**
   * The constructors check the raw endpoints for duplicates but key the pool by the stripped ones: the pool has
   * one container per endpoint exactly when the stripped endpoints differ.
   */
  lemma PoolIsCompleteIffNormalizedDistinct(endpoints: seq<string>, active: nat)
    requires active <= |endpoints|
    ensures |Built(endpoints, active, |endpoints|)| == |endpoints| <==> NormalizedDistinct(endpoints)
    ensures NormalizedDistinct(endpoints) ==> Capacity(Built(endpoints, active, |endpoints|)) == active
  {
    assert endpoints[..|endpoints|] == endpoints;
    BuiltShape(endpoints, active, |endpoints|);
    if NormalizedDistinct(endpoints) {
      FreshCapacity(Built(endpoints, active, |endpoints|), active);
    }
  }

  lemma {:induction false} FreshCapacity(cs: seq<Container>, active: nat)
    requires active <= |cs|
    requires forall i :: 0 <= i < |cs| ==> cs[i].role == (if i < active then Active else Spare)
    ensures Capacity(cs) == active
  {
    if cs != [] {
      EveryState(cs[0].state);
      FreshCapacity(cs[1..], if active == 0 then 0 else active - 1);
    }
  }

  /** Two raw-distinct endpoints can collapse into one spare: no active container is left, so nothing is granted. */
  lemma SlashCollisionLosesTheActive()
    ensures RawDistinct(["h", "h/"])
    ensures Built(["h", "h/"], 1, 2) == [NewContainer("h", Spare)]
    ensures Decide([NewContainer("h", Spare)]) == Wait
  {
    var endpoints := ["h", "h/"];
    var cs := [NewContainer("h", Spare)];
    assert cs[1..] == [];
    assert Capacity(cs) == 0;
    assert endpoints[0] != endpoints[1];
    assert "h/"[..1] == "h";
    assert RStrip("h/") == RStrip("h") == "h";
    assert Built(endpoints, 1, 1) == Put([], NewContainer("h", Active)) == [NewContainer("h", Active)];
  }
}
