/** The acting principal, as the middlewares and controllers read it from
    `req.user` once authentication has resolved it. */
module Principals {
  import opened Common
  import opened Addresses

  datatype Role = Owner | Admin | User

  /** The three modules an admin's permissions are scoped by. */
  datatype Module = Requests | Services | Msk

  /** The level a route requires of a module. */
  datatype Level = Read | Manage

  /** One entry of `permissions`: the raw `access` string ("" when absent) and
      the allow-lists; `allowedTypes` serves requests and services,
      `allowedCategories` the msk module. An absent list is []. */
  datatype ModulePerms = ModulePerms(access: string, allowedTypes: seq<Id>, allowedCategories: seq<Id>)

  /** An admin's region: the node id and the level it sits at. */
  datatype AssignedRegion = AssignedRegion(region: Id, regionType: string)

  datatype Principal = Principal(
    id: Id,
    role: Role,
    assignedRegion: Option<AssignedRegion>,
    permissions: Option<map<Module, ModulePerms>>,
    address: Option<UserAddress>)

  /** The region every listing restricts an admin to: its assigned region,
      when the principal is an admin and has one. */
  function AdminRegion(p: Principal): (r: Option<Id>)
    ensures r.Some? <==> p.role == Admin && p.assignedRegion.Some?
    ensures r.Some? ==> r.value == p.assignedRegion.value.region
  {
    if p.role == Admin && p.assignedRegion.Some? then Some(p.assignedRegion.value.region) else None
  }
}
