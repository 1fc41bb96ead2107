/** The route tables: each route's middleware chain, run in order until one
    middleware answers. Token verification is outside this model: the session
    is the principal `protect` resolves, or None when it answers 401. */
module Routes {
  import opened Common
  import opened Principals
  import opened Auth
  import opened Permission

  /** The regionId a region gate would read from params, body and query. */
  datatype RegionParams = RegionParams(params: string, body: string, query: string)

  /** One middleware of a chain. */
  datatype Step =
    | Protect
    | RoleGate(roles: seq<Role>)
    | PermissionGate(m: Module, level: Level)
    | RegionGate(level: Level)

  datatype Route =
    // requests
    | RequestCreate | RequestMine | RequestEdit | RequestCancel
    | RequestStats | RequestList | RequestStatus
    // service reports
    | ReportCreate | ReportMine | ReportStats | ReportList | ReportStatus
    | ReportConfirm | ReportCancel
    // msk categories and orders
    | CategoryList | CategoryCreate | CategoryUpdate | CategoryDelete
    | OrderCreate | OrderMine | OrderEdit | OrderList | OrderStatus
    | OrderConfirm | OrderCancel
    // statistics
    | Dashboard | ByRegion
    // regions
    | RegionList | RegionGet | RegionCreate | RegionUpdate | RegionDelete
    // the user's own profile
    | ProfileGet | ProfileUpdate | ProfileSetRegion

  const Staff: seq<Role> := [Owner, Admin]

  /** The middleware chain each route is mounted with. */
  function Chain(r: Route): seq<Step>
  {
    match r
    case RequestCreate | RequestMine | RequestEdit | RequestCancel => [Protect, RoleGate([User])]
    case RequestStats | RequestList => [Protect, RoleGate(Staff), PermissionGate(Requests, Read)]
    case RequestStatus => [Protect, RoleGate(Staff), PermissionGate(Requests, Manage)]
    case ReportCreate | ReportMine | ReportConfirm | ReportCancel => [Protect, RoleGate([User])]
    case ReportStats | ReportList => [Protect, RoleGate(Staff), PermissionGate(Services, Read)]
    case ReportStatus => [Protect, RoleGate(Staff), PermissionGate(Services, Manage)]
    case CategoryList => []
    case CategoryCreate | CategoryUpdate | CategoryDelete => [Protect, RoleGate([Owner])]
    case OrderCreate | OrderMine | OrderEdit | OrderConfirm | OrderCancel => [Protect, RoleGate([User])]
    case OrderList => [Protect, RoleGate(Staff), PermissionGate(Msk, Read)]
    case OrderStatus => [Protect, RoleGate(Staff), PermissionGate(Msk, Manage)]
    case Dashboard | ByRegion => [Protect, RoleGate(Staff)]
    case RegionList | RegionGet => []
    case RegionCreate | RegionUpdate => [Protect, RoleGate(Staff)]
    case RegionDelete => [Protect, RoleGate([Owner])]
    case ProfileGet | ProfileUpdate | ProfileSetRegion => [Protect]
  }

  /** checkPermission's decision as a middleware outcome. */
  function GateOutcome(d: Decision): (o: Outcome)
    ensures o.Pass? <==> d.Allow?
    ensures o.Fail? ==> o.error == d.error
  {
    match d
    case Deny(e) => Fail(e)
    case Allow(_) => Pass
  }

  /** One middleware on the session. A gate reached without `protect` reads
      the role of an absent user, which throws: the 500 answer. */
  function StepOutcome(step: Step, session: Option<Principal>, q: RegionParams): Outcome
  {
    match step
    case Protect => if session.None? then Fail(Unauthenticated) else Pass
    case RoleGate(roles) => if session.None? then Fail(ServerError) else Authorize(roles, session.value)
    case PermissionGate(m, level) =>
      if session.None? then Fail(ServerError) else GateOutcome(Decide(session.value, m, level))
    case RegionGate(level) =>
      if session.None? then Fail(ServerError) else CheckRegionAccess(session.value, level, q.params, q.body, q.query)
  }

  /** Express's `next()` chain: the first middleware that answers decides;
      the handler runs only when all of them pass. */
  function RunChain(steps: seq<Step>, session: Option<Principal>, q: RegionParams): (o: Outcome)
    ensures o.Pass? <==> forall i | 0 <= i < |steps| :: StepOutcome(steps[i], session, q).Pass?
    ensures o.Fail? ==> exists i | 0 <= i < |steps| ::
              && o == StepOutcome(steps[i], session, q)
              && forall j | 0 <= j < i :: StepOutcome(steps[j], session, q).Pass?
    decreases |steps|
  {
    if steps == [] then Pass
    else
      var first := StepOutcome(steps[0], session, q);
      if first.Fail? then first
      else
        var rest := RunChain(steps[1..], session, q);
        assert forall i | 1 <= i < |steps| :: steps[i] == steps[1..][i - 1];
        if rest.Fail? then
          var k :| 0 <= k < |steps[1..]| && rest == StepOutcome(steps[1..][k], session, q)
                   && forall j | 0 <= j < k :: StepOutcome(steps[1..][j], session, q).Pass?;
          assert rest == StepOutcome(steps[k + 1], session, q);
          rest
        else rest
  }

  /** Whether a request reaches the route's handler, or the answer it gets. */
  function Admit(r: Route, session: Option<Principal>, q: RegionParams): Outcome
  {
    RunChain(Chain(r), session, q)
  }

  /** The module a staff route of a ticket kind is scoped by. */
  function ModuleOf(r: Route): Module
  {
    match r
    case ReportCreate | ReportMine | ReportStats | ReportList | ReportStatus | ReportConfirm | ReportCancel => Services
    case OrderCreate | OrderMine | OrderEdit | OrderList | OrderStatus | OrderConfirm | OrderCancel => Msk
    case _ => Requests
  }

  /** Routes any visitor reaches, signed in or not. */
  predicate IsPublic(r: Route)
  {
    r == CategoryList || r == RegionList || r == RegionGet
  }

  /** The citizen routes of the three ticket kinds. */
  predicate UserOnly(r: Route)
  {
    match r
    case RequestCreate | RequestMine | RequestEdit | RequestCancel => true
    case ReportCreate | ReportMine | ReportConfirm | ReportCancel => true
    case OrderCreate | OrderMine | OrderEdit | OrderConfirm | OrderCancel => true
    case _ => false
  }

  /** The staff routes that read a module. */
  predicate ReadsModule(r: Route)
  {
    match r
    case RequestStats | RequestList | ReportStats | ReportList | OrderList => true
    case _ => false
  }

  /** The staff routes that change a ticket's status. */
  predicate ManagesModule(r: Route)
  {
    match r
    case RequestStatus | ReportStatus | OrderStatus => true
    case _ => false
  }

  /** The category writes and region deletion. */
  predicate OwnerOnly(r: Route)
  {
    match r
    case CategoryCreate | CategoryUpdate | CategoryDelete | RegionDelete => true
    case _ => false
  }

  /** The statistics routes and the region writes open to both staff roles. */
  predicate StaffOnly(r: Route)
  {
    match r
    case Dashboard | ByRegion | RegionCreate | RegionUpdate => true
    case _ => false
  }

  /** The listing and status route of each module. */
  function ListRoute(m: Module): Route
  {
    match m
    case Requests => RequestList
    case Services => ReportList
    case Msk => OrderList
  }

  function StatusRoute(m: Module): Route
  {
    match m
    case Requests => RequestStatus
    case Services => ReportStatus
    case Msk => OrderStatus
  }

  /** A non-empty chain runs its first middleware, then the rest. */
  lemma {:induction false} RunShort(steps: seq<Step>, session: Option<Principal>, q: RegionParams)
    requires steps != []
    ensures RunChain(steps, session, q) ==
              var first := StepOutcome(steps[0], session, q);
              if first.Fail? then first else RunChain(steps[1..], session, q)
  {
  }

  /** The category list and the region reads need no sign-in. */
  lemma PublicRoutesOpen(r: Route, session: Option<Principal>, q: RegionParams)
    requires IsPublic(r)
    ensures Admit(r, session, q) == Pass
  {
    assert Chain(r) == [];
  }

  /** Every other route starts with `protect`: without a session it is 401. */
  lemma {:induction false} SignInRequired(r: Route, q: RegionParams)
    requires !IsPublic(r)
    ensures Admit(r, None, q) == Fail(Unauthenticated)
  {
    RunShort(Chain(r), None, q);
  }

  /** `protect` then `authorize(roles)`: the role check decides. */
  lemma {:induction false} RoleChain(roles: seq<Role>, p: Principal, q: RegionParams)
    ensures RunChain([Protect, RoleGate(roles)], Some(p), q) == Authorize(roles, p)
  {
    var steps := [Protect, RoleGate(roles)];
    RunShort(steps, Some(p), q);
    RunShort(steps[1..], Some(p), q);
    assert steps[1..][1..] == [];
  }

  /** `protect`, owner-or-admin, then `checkPermission(m, level)`. */
  lemma {:induction false} PermissionChain(m: Module, level: Level, p: Principal, q: RegionParams)
    ensures RunChain([Protect, RoleGate(Staff), PermissionGate(m, level)], Some(p), q) ==
              if p.role !in Staff then Fail(ForbiddenRole) else GateOutcome(Decide(p, m, level))
  {
    var steps := [Protect, RoleGate(Staff), PermissionGate(m, level)];
    RunShort(steps, Some(p), q);
    RunShort(steps[1..], Some(p), q);
    RunShort(steps[2..], Some(p), q);
    assert steps[1..][1..] == steps[2..];
    assert steps[2..][1..] == [];
  }

  /** Citizen routes admit exactly role "user": the owner and admins cannot
      create, edit, confirm or cancel a ticket. */
  lemma UserOnlyRoutes(r: Route, p: Principal, q: RegionParams)
    requires UserOnly(r)
    ensures Admit(r, Some(p), q) == if p.role == User then Pass else Fail(ForbiddenRole)
  {
    assert Chain(r) == [Protect, RoleGate([User])];
    RoleChain([User], p, q);
  }

  /** The read routes: owner or admin first, then the module at "read". */
  lemma ReadRoutes(r: Route, p: Principal, q: RegionParams)
    requires ReadsModule(r)
    ensures Chain(r) == [Protect, RoleGate(Staff), PermissionGate(ModuleOf(r), Read)]
    ensures Admit(r, Some(p), q) ==
              if p.role !in Staff then Fail(ForbiddenRole) else GateOutcome(Decide(p, ModuleOf(r), Read))
  {
    PermissionChain(ModuleOf(r), Read, p, q);
  }

  /** The status routes: owner or admin first, then the module at "manage". */
  lemma ManageRoutes(r: Route, p: Principal, q: RegionParams)
    requires ManagesModule(r)
    ensures Chain(r) == [Protect, RoleGate(Staff), PermissionGate(ModuleOf(r), Manage)]
    ensures Admit(r, Some(p), q) ==
              if p.role !in Staff then Fail(ForbiddenRole) else GateOutcome(Decide(p, ModuleOf(r), Manage))
  {
    PermissionChain(ModuleOf(r), Manage, p, q);
  }

  /** Category writes and region deletion are owner-only. */
  lemma OwnerOnlyRoutes(r: Route, p: Principal, q: RegionParams)
    requires OwnerOnly(r)
    ensures Admit(r, Some(p), q) == if p.role == Owner then Pass else Fail(ForbiddenRole)
  {
    assert Chain(r) == [Protect, RoleGate([Owner])];
    RoleChain([Owner], p, q);
  }

  /** The statistics routes and region writes check the role only: an admin
      reaches them whatever its module permissions say. */
  lemma StaffRoutesIgnorePermissions(r: Route, p: Principal, q: RegionParams)
    requires StaffOnly(r)
    ensures Admit(r, Some(p), q) == if p.role in Staff then Pass else Fail(ForbiddenRole)
    ensures forall i | 0 <= i < |Chain(r)| :: !Chain(r)[i].PermissionGate?
  {
    assert Chain(r) == [Protect, RoleGate(Staff)];
    RoleChain(Staff, p, q);
  }

  /** A chain without a region gate does not read the region parameters. */
  lemma {:induction false} RunIgnoresRegionParams(steps: seq<Step>, session: Option<Principal>, q1: RegionParams, q2: RegionParams)
    requires forall i | 0 <= i < |steps| :: !steps[i].RegionGate?
    ensures RunChain(steps, session, q1) == RunChain(steps, session, q2)
    decreases |steps|
  {
    if steps != [] {
      assert StepOutcome(steps[0], session, q1) == StepOutcome(steps[0], session, q2);
      assert forall i | 0 <= i < |steps[1..]| :: steps[1..][i] == steps[i + 1];
      RunIgnoresRegionParams(steps[1..], session, q1, q2);
    }
  }

  /** No route runs the region gate. */
  lemma NoRegionGate(r: Route)
    ensures forall i | 0 <= i < |Chain(r)| :: !Chain(r)[i].RegionGate?
  {
  }

  /** Hence an explicit regionId never changes whether a request is admitted. */
  lemma {:induction false} RegionIdNeverChecked(r: Route, session: Option<Principal>, q1: RegionParams, q2: RegionParams)
    ensures Admit(r, session, q1) == Admit(r, session, q2)
  {
    NoRegionGate(r);
    RunIgnoresRegionParams(Chain(r), session, q1, q2);
  }

  /** Each module's listing route reads it and its status route manages it. */
  lemma ModuleRoutes(m: Module)
    ensures ReadsModule(ListRoute(m)) && ModuleOf(ListRoute(m)) == m
    ensures ManagesModule(StatusRoute(m)) && ModuleOf(StatusRoute(m)) == m
  {
  }

  /** An admin whose entry for a module says "read" can list its tickets but
      not change their status. */
  lemma ReadOnlyAdminListsOnly(m: Module, p: Principal, q: RegionParams)
    requires p.role == Admin && EntryOf(p, m).Some? && EntryOf(p, m).value.access == "read"
    ensures Admit(ListRoute(m), Some(p), q) == Pass
    ensures Admit(StatusRoute(m), Some(p), q) == Fail(ReadOnly)
  {
    ModuleRoutes(m);
    ReadRoutes(ListRoute(m), p, q);
    ManageRoutes(StatusRoute(m), p, q);
  }

  /** Whoever may change a module's statuses may also list its tickets. */
  lemma StatusImpliesList(m: Module, p: Principal, q: RegionParams)
    requires Admit(StatusRoute(m), Some(p), q) == Pass
    ensures Admit(ListRoute(m), Some(p), q) == Pass
  {
    ModuleRoutes(m);
    ManageRoutes(StatusRoute(m), p, q);
    ReadRoutes(ListRoute(m), p, q);
    ManageImpliesRead(p, m);
  }
}
