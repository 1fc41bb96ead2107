/** checkPermission(module, requiredLevel): the per-module access gate of the
    admin routes. The decision is a total function of the principal; on a pass
    for an admin with an entry for the module, the middleware attaches that
    module's allow-list to the request for the controller to read. */
module Permission {
  import opened Common
  import opened Principals

  /** Deny with an error, or allow; `attached` is the allow-list written onto
      the request (None when nothing is written). */
  datatype Decision = Deny(error: Error) | Allow(attached: Option<seq<Id>>)

  /** `modulePerms.access || "manage"`: a missing or empty access value means manage. */
  function EffectiveAccess(entry: ModulePerms): (access: string)
    ensures access != ""
    ensures entry.access != "" ==> access == entry.access
    ensures entry.access == "" ==> access == "manage"
  {
    if entry.access == "" then "manage" else entry.access
  }

  /** The reference table: which effective access values admit which level. */
  predicate Permits(access: string, level: Level)
  {
    access != "off" && !(level == Manage && access == "read")
  }

  /** The list attached for module m: requests and services read `allowedTypes`,
      msk reads `allowedCategories`. */
  function AllowListOf(m: Module, entry: ModulePerms): seq<Id>
  {
    if m == Msk then entry.allowedCategories else entry.allowedTypes
  }

  /** The entry an admin has for m, if any. */
  function EntryOf(p: Principal, m: Module): Option<ModulePerms>
  {
    if p.permissions.Some? && m in p.permissions.value then Some(p.permissions.value[m]) else None
  }

  /** The decision chain of checkPermission. */
  function Decide(p: Principal, m: Module, level: Level): (d: Decision)
    ensures d.Allow? <==>
              || p.role == Owner
              || (p.role == Admin && (EntryOf(p, m).None? || Permits(EffectiveAccess(EntryOf(p, m).value), level)))
    ensures d.Allow? && d.attached.Some? ==>
              p.role == Admin && EntryOf(p, m).Some? && d.attached.value == AllowListOf(m, EntryOf(p, m).value)
    ensures d.Deny? ==> d.error in {ForbiddenRole, ModuleDisabled, ReadOnly}
  {
    if p.role == Owner then Allow(None)
    else if p.role != Admin then Deny(ForbiddenRole)
    else if p.permissions.None? then Allow(None)
    else if m !in p.permissions.value then Allow(None)
    else
      var entry := p.permissions.value[m];
      var access := EffectiveAccess(entry);
      if access == "off" then Deny(ModuleDisabled)
      else if level == Manage && access == "read" then Deny(ReadOnly)
      else Allow(Some(AllowListOf(m, entry)))
  }

  /** The owner passes for every module and level, and nothing is attached. */
  lemma OwnerAlwaysAllowed(p: Principal, m: Module, level: Level)
    requires p.role == Owner
    ensures Decide(p, m, level) == Allow(None)
  {
  }

  /** A role other than owner or admin is answered 403. */
  lemma OtherRolesDenied(p: Principal, m: Module, level: Level)
    requires p.role != Owner && p.role != Admin
    ensures Decide(p, m, level) == Deny(ForbiddenRole)
    ensures StatusCode(Decide(p, m, level).error) == 403
  {
  }

  /** An admin without a permissions object, or without an entry for the
      module, passes and gets no allow-list: listings stay unrestricted. */
  lemma NoEntryUnrestricted(p: Principal, m: Module, level: Level)
    requires p.role == Admin && EntryOf(p, m).None?
    ensures Decide(p, m, level) == Allow(None)
  {
  }

  /** With an entry, the decision follows the effective access level by
      level: "off" is refused at both levels, "read" passes read and is
      refused at manage, any other value (the empty one included, which
      means manage) passes both; every pass attaches the module's own list,
      and the decision passes exactly where the reference table permits. */
  lemma AdminEntryDecision(p: Principal, m: Module, level: Level)
    requires p.role == Admin && EntryOf(p, m).Some?
    ensures var access := EffectiveAccess(EntryOf(p, m).value);
            access == "off" ==>
              Decide(p, m, Read) == Deny(ModuleDisabled) && Decide(p, m, Manage) == Deny(ModuleDisabled)
    ensures var entry := EntryOf(p, m).value;
            EffectiveAccess(entry) == "read" ==>
              Decide(p, m, Read) == Allow(Some(AllowListOf(m, entry))) && Decide(p, m, Manage) == Deny(ReadOnly)
    ensures var entry := EntryOf(p, m).value;
            EffectiveAccess(entry) != "off" && EffectiveAccess(entry) != "read" ==>
              Decide(p, m, Read) == Allow(Some(AllowListOf(m, entry))) &&
              Decide(p, m, Manage) == Allow(Some(AllowListOf(m, entry)))
    ensures Decide(p, m, level).Allow? <==> Permits(EffectiveAccess(EntryOf(p, m).value), level)
    ensures EntryOf(p, m).value.access == "" ==> Decide(p, m, Read).Allow? && Decide(p, m, Manage).Allow?
  {
  }

  /** Manage implies read: whatever passes at manage passes at read, with the same list. */
  lemma ManageImpliesRead(p: Principal, m: Module)
    requires Decide(p, m, Manage).Allow?
    ensures Decide(p, m, Read) == Decide(p, m, Manage)
  {
  }

  /** The request object the gate writes on: one allow-list field per module. */
  class RequestContext {
    const user: Principal
    var allowedTypes: Option<seq<Id>>
    var allowedServiceTypes: Option<seq<Id>>
    var allowedMskCategories: Option<seq<Id>>

    constructor (user: Principal)
      ensures this.user == user
      ensures allowedTypes == None && allowedServiceTypes == None && allowedMskCategories == None
    {
      this.user := user;
      allowedTypes, allowedServiceTypes, allowedMskCategories := None, None, None;
    }

    /** Runs the gate: on a pass with an entry, the module's own field gets the
        list and the other two fields are left alone. */
    method CheckPermission(m: Module, level: Level) returns (o: Outcome)
      modifies this
      ensures o == match Decide(user, m, level) case Deny(e) => Fail(e) case Allow(_) => Pass
      ensures var d := Decide(user, m, level);
              && allowedTypes == (if d.Allow? && d.attached.Some? && m == Requests then d.attached else old(allowedTypes))
              && allowedServiceTypes == (if d.Allow? && d.attached.Some? && m == Services then d.attached else old(allowedServiceTypes))
              && allowedMskCategories == (if d.Allow? && d.attached.Some? && m == Msk then d.attached else old(allowedMskCategories))
    {
      if user.role == Owner { return Pass; }
      if user.role != Admin { return Fail(ForbiddenRole); }
      if user.permissions.None? { return Pass; }
      if m !in user.permissions.value { return Pass; }
      var entry := user.permissions.value[m];
      var access := EffectiveAccess(entry);
      if access == "off" { return Fail(ModuleDisabled); }
      if level == Manage && access == "read" { return Fail(ReadOnly); }
      if m == Requests {
        allowedTypes := Some(entry.allowedTypes);
      } else if m == Services {
        allowedServiceTypes := Some(entry.allowedTypes);
      } else {
        allowedMskCategories := Some(entry.allowedCategories);
      }
      return Pass;
    }
  }
}
