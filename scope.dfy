/** The query filters the listing, statistics and dashboard handlers build,
    and the predicate a ticket must satisfy to be selected by one. Region
    clauses compare stored address fields by exact equality: there is no
    walk up the region tree. */
module Scope {
  import opened Common
  import opened Addresses

  datatype AddressField = RegionField | DistrictField | NeighborhoodField | StreetField

  function FieldValue(refs: RegionRefs, f: AddressField): Option<Id>
  {
    match f
    case RegionField => refs.region
    case DistrictField => refs.district
    case NeighborhoodField => refs.neighborhood
    case StreetField => refs.street
  }

  /** The `$or` over the four address fields. */
  predicate InAnyOf4(refs: RegionRefs, rid: Id)
  {
    refs.region == Some(rid) || refs.district == Some(rid) || refs.neighborhood == Some(rid) || refs.street == Some(rid)
  }

  /** The `$or` over region, district and neighborhood (service statistics). */
  predicate InAnyOf3(refs: RegionRefs, rid: Id)
  {
    refs.region == Some(rid) || refs.district == Some(rid) || refs.neighborhood == Some(rid)
  }

  /** A clause on a sub-type reference: none, `field: id`, or `field: { $in: ids }`. */
  datatype IdClause = AnyId | IdEq(id: Id) | IdIn(ids: seq<Id>)

  /** A clause on the address: none, an any-of-four or any-of-three `$or`, or one field. */
  datatype RegionClause = AnyRegion | AnyOf4(rid: Id) | AnyOf3(rid: Id) | FieldEq(field: AddressField, rid: Id)

  /** A query filter: status and category by string equality, one sub-type
      clause (Request.type, ServiceReport.service, MskOrder.category) and one
      region clause. */
  datatype Filter = Filter(status: Option<string>, category: Option<string>, subtype: IdClause, region: RegionClause)

  /** What a filter can see of a ticket. */
  datatype TicketView = TicketView(status: string, category: Option<string>, subtype: Option<Id>, refs: RegionRefs)

  /** The empty filter `{}`. */
  const Unfiltered: Filter := Filter(None, None, AnyId, AnyRegion)

  predicate IdClauseHolds(c: IdClause, x: Option<Id>)
  {
    match c
    case AnyId => true
    case IdEq(id) => x == Some(id)
    case IdIn(ids) => x.Some? && x.value in ids
  }

  predicate RegionClauseHolds(c: RegionClause, refs: RegionRefs)
  {
    match c
    case AnyRegion => true
    case AnyOf4(rid) => InAnyOf4(refs, rid)
    case AnyOf3(rid) => InAnyOf3(refs, rid)
    case FieldEq(f, rid) => FieldValue(refs, f) == Some(rid)
  }

  /** matches(filter, ticket). */
  predicate Matches(f: Filter, v: TicketView)
  {
    && (f.status.Some? ==> v.status == f.status.value)
    && (f.category.Some? ==> v.category == f.category)
    && IdClauseHolds(f.subtype, v.subtype)
    && RegionClauseHolds(f.region, v.refs)
  }

  /** The region scope of the ticket listings: an explicit regionId replaces
      the admin's own any-of-four clause instead of being conjoined with it. */
  predicate ListingRegionScope(refs: RegionRefs, regionId: string, adminRegion: Option<Id>)
  {
    if regionId != "" then InAnyOf4(refs, regionId)
    else adminRegion.Some? ==> InAnyOf4(refs, adminRegion.value)
  }

  /** The sub-type scope of a listing: a non-empty allow-list replaces the
      explicit sub-type parameter. */
  predicate ListingSubtypeScope(subtype: Option<Id>, param: string, allowed: Option<seq<Id>>)
  {
    if allowed.Some? && allowed.value != [] then subtype.Some? && subtype.value in allowed.value
    else param != "" ==> subtype == Some(param)
  }

  /** The empty filter selects every ticket. */
  lemma UnfilteredMatchesAll(v: TicketView)
    ensures Matches(Unfiltered, v)
  {
  }

  /** The any-of-four clause is per-field equality: it holds exactly when some
      stored field equals the id. */
  lemma {:induction false} AnyOf4IsSomeField(refs: RegionRefs, rid: Id)
    ensures RegionClauseHolds(AnyOf4(rid), refs) <==> exists f :: FieldValue(refs, f) == Some(rid)
  {
    if RegionClauseHolds(AnyOf4(rid), refs) {
      if refs.region == Some(rid) {
        assert FieldValue(refs, RegionField) == Some(rid);
      } else if refs.district == Some(rid) {
        assert FieldValue(refs, DistrictField) == Some(rid);
      } else if refs.neighborhood == Some(rid) {
        assert FieldValue(refs, NeighborhoodField) == Some(rid);
      } else {
        assert FieldValue(refs, StreetField) == Some(rid);
      }
    }
  }

  /** Not hierarchy-aware: a ticket whose district equals R matches R even
      though its region is another node, while a ticket that stores only other
      nodes (a street lying under R, say) does not. */
  lemma ExactFieldEquality(r: Id, other: Id, street: Id)
    requires other != r && street != r
    ensures RegionClauseHolds(AnyOf4(r), RegionRefs(Some(other), Some(r), None, None))
    ensures !RegionClauseHolds(AnyOf4(r), RegionRefs(Some(other), None, None, Some(street)))
  {
  }

  /** The any-of-three clause ignores the street. */
  lemma AnyOf3IgnoresStreet(refs: RegionRefs, rid: Id)
    ensures RegionClauseHolds(AnyOf3(rid), refs) <==> RegionClauseHolds(AnyOf4(rid), refs.(street := None))
    ensures refs.street == Some(rid) && refs.region != Some(rid) && refs.district != Some(rid) && refs.neighborhood != Some(rid)
            ==> RegionClauseHolds(AnyOf4(rid), refs) && !RegionClauseHolds(AnyOf3(rid), refs)
  {
  }

  /** An explicit regionId lets an admin's listing select tickets that lie
      wholly outside the admin's assigned region. */
  lemma ExplicitRegionEscapesScope(own: Id, regionId: Id, refs: RegionRefs)
    requires regionId != "" && regionId != own
    requires refs == RegionRefs(Some(regionId), None, None, None)
    ensures ListingRegionScope(refs, regionId, Some(own))
    ensures !InAnyOf4(refs, own)
  {
  }

  /** A non-empty allow-list hides the explicit sub-type parameter: a ticket
      of an allowed sub-type is listed even when the parameter names another. */
  lemma AllowListOverridesParam(subtype: Id, param: string, allowed: seq<Id>)
    requires subtype in allowed && param != subtype
    ensures ListingSubtypeScope(Some(subtype), param, Some(allowed))
  {
  }

  /** An empty or missing allow-list is no restriction. */
  lemma EmptyAllowListUnrestricted(subtype: Option<Id>, allowed: Option<seq<Id>>)
    requires allowed.None? || allowed.value == []
    ensures ListingSubtypeScope(subtype, "", allowed)
  {
  }
}
