/** The dashboard and by-region statistics: one region scope applied to all
    three ticket kinds, and the per-status tally of each. */
module StatsController {
  import opened Common
  import opened Addresses
  import opened Principals
  import opened Scope
  import opened Tallies

  /** getDashboard: the `$match` stage shared by the three pipelines. An admin
      with a region sees the tickets with that id in any of the four address
      fields; anyone else sees every ticket. No allow-list is applied. */
  method DashboardMatch(user: Principal) returns (f: Filter)
    ensures f.status.None? && f.category.None? && f.subtype == AnyId
    ensures forall v :: Matches(f, v) <==>
              (AdminRegion(user).Some? ==> InAnyOf4(v.refs, AdminRegion(user).value))
  {
    f := Unfiltered;
    if user.role == Admin && user.assignedRegion.Some? {
      var rid := user.assignedRegion.value.region;
      f := f.(region := AnyOf4(rid));
    }
  }

  /** getByRegion: the one address field the supplied regionType selects. */
  function AddressFieldFor(regionType: string): (field: AddressField)
    ensures field != StreetField
    ensures field == DistrictField <==> regionType == "district"
    ensures field == NeighborhoodField <==> regionType == "neighborhood"
  {
    if regionType == "district" then DistrictField
    else if regionType == "neighborhood" then NeighborhoodField
    else RegionField
  }

  /** "street", an absent type and any unknown one all select the region field. */
  lemma StreetCountsByRegion(regionType: string)
    requires regionType != "district" && regionType != "neighborhood"
    ensures AddressFieldFor(regionType) == RegionField
    ensures AddressFieldFor("street") == RegionField && AddressFieldFor("") == RegionField
  {
  }

  /** getByRegion: the 400 and 403 checks, then the single-field match. The
      owner, and any role other than admin, is not checked against the region. */
  function ByRegionMatch(user: Principal, regionId: string, regionType: string): (r: Result<Filter>)
    ensures r == Err(MissingFields) <==> regionId == ""
    ensures r == Err(RegionForbidden) <==>
              regionId != "" && user.role == Admin
              && !(user.assignedRegion.Some? && user.assignedRegion.value.region == regionId)
    ensures r.Ok? ==> forall v :: Matches(r.value, v) <==> FieldValue(v.refs, AddressFieldFor(regionType)) == Some(regionId)
  {
    if regionId == "" then Err(MissingFields)
    else if user.role == Admin && !(user.assignedRegion.Some? && user.assignedRegion.value.region == regionId) then
      Err(RegionForbidden)
    else Ok(Unfiltered.(region := FieldEq(AddressFieldFor(regionType), regionId)))
  }

  /** An owner may ask for any region. */
  lemma OwnerUnchecked(user: Principal, regionId: string, regionType: string)
    requires user.role == Owner && regionId != ""
    ensures ByRegionMatch(user, regionId, regionType).Ok?
  {
  }

  /** An admin gets the by-region statistics of exactly its own assigned region node. */
  lemma AdminOnlyOwnRegion(user: Principal, regionId: string, regionType: string)
    requires user.role == Admin && regionId != ""
    ensures ByRegionMatch(user, regionId, regionType).Ok? <==>
              user.assignedRegion.Some? && user.assignedRegion.value.region == regionId
  {
  }

  /** formatStats: `total` starts at 0 and accumulates every count; each
      grouped status holds its own count; no other key appears. */
  method FormatStats(stats: seq<Group>) returns (result: map<string, nat>)
    ensures "total" in result
    ensures NoTotalKey(stats) ==> result["total"] == Sum(stats)
    ensures forall k | k != "total" :: k in result <==> LastCount(stats, k).Some?
    ensures forall k | k != "total" && k in result :: result[k] == LastCount(stats, k).value
  {
    var init := map["total" := 0];
    result := Tally(init, stats);
    if NoTotalKey(stats) { TallyTotal(init, stats); }
    forall k | k != "total"
      ensures k in result <==> k in init || LastCount(stats, k).Some?
      ensures k in result ==> result[k] == if LastCount(stats, k).Some? then LastCount(stats, k).value else init[k]
    {
      TallyKey(init, stats, k);
    }
  }
}
