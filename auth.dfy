/** authorize(...roles) and checkRegionAccess(accessLevel): the role gate of
    every protected route and the region gate for an explicit regionId.
    Token verification (protect) is outside this model: the principal it
    resolves is an input. */
module Auth {
  import opened Common
  import opened Principals

  /** authorize: passes exactly when the role is one of `roles`, else 403. */
  function Authorize(roles: seq<Role>, p: Principal): (o: Outcome)
    ensures o.Pass? <==> p.role in roles
    ensures o.Fail? ==> o.error == ForbiddenRole && StatusCode(o.error) == 403
  {
    if p.role !in roles then Fail(ForbiddenRole) else Pass
  }

  /** `req.params.regionId || req.body.regionId || req.query.regionId`: the first
      non-empty one ("" for absent). */
  function RegionIdParam(params: string, body: string, query: string): (r: string)
    ensures r == "" <==> params == "" && body == "" && query == ""
    ensures params != "" ==> r == params
    ensures params == "" && body != "" ==> r == body
    ensures params == "" && body == "" ==> r == query
  {
    if params != "" then params else if body != "" then body else query
  }

  /** checkRegionAccess. The `accessLevel` argument is accepted and never read. */
  function CheckRegionAccess(p: Principal, accessLevel: Level, params: string, body: string, query: string): (o: Outcome)
    ensures p.role == Owner ==> o == Pass
    ensures p.role == User ==> o == Fail(ForbiddenRole)
    ensures p.role == Admin ==>
              var regionId := RegionIdParam(params, body, query);
              (o.Pass? <==> regionId == "" || (p.assignedRegion.Some? && p.assignedRegion.value.region == regionId))
    ensures o.Fail? ==> o.error in {ForbiddenRole, RegionForbidden} && StatusCode(o.error) == 403
  {
    if p.role == Owner then Pass
    else if p.role != Admin then Fail(ForbiddenRole)
    else
      var regionId := RegionIdParam(params, body, query);
      if regionId == "" then Pass
      else
        var hasAccess := p.assignedRegion.Some? && p.assignedRegion.value.region == regionId;
        if !hasAccess then Fail(RegionForbidden) else Pass
  }

  /** Read and manage give the same outcome. */
  lemma RegionAccessIgnoresLevel(p: Principal, params: string, body: string, query: string)
    ensures CheckRegionAccess(p, Read, params, body, query) == CheckRegionAccess(p, Manage, params, body, query)
  {
  }
}
