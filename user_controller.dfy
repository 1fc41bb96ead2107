/** The user's own profile handlers: setRegion, which builds the address and
    turns free-text neighborhood and street names into new region nodes, and
    updateProfile. */
module UserController {
  import opened Common
  import opened Addresses
  import opened RegionModel
  import opened RegionController

  /** The setRegion body; "" stands for a missing or empty value. */
  datatype RegionForm = RegionForm(
    region: string,
    district: string,
    neighborhood: string,
    street: string,
    neighborhoodCustom: string,
    streetCustom: string,
    houseType: string,
    houseNumber: string,
    apartment: string)

  /** The address before any custom node is created: absent ids are null,
      absent strings "", and the house type defaults to "private". */
  function BaseAddress(f: RegionForm): UserAddress
  {
    UserAddress(f.region, f.district, IdOrNull(f.neighborhood), IdOrNull(f.street),
                f.neighborhoodCustom, f.streetCustom,
                if f.houseType != "" then f.houseType else "private",
                f.houseNumber, f.apartment)
  }

  /** A neighborhood node is created for a custom name given without a neighborhood id. */
  predicate WantsNeighborhood(f: RegionForm)
  {
    f.neighborhood == "" && f.neighborhoodCustom != ""
  }

  /** A street node is created for a custom name given without a street id,
      once the address has a neighborhood to hang it under. */
  predicate WantsStreet(f: RegionForm, a: UserAddress)
  {
    f.street == "" && f.streetCustom != "" && a.neighborhood.Some?
  }

  /** The custom-neighborhood step: the address and the table after it. */
  function NeighborhoodStage(nodes: map<Id, RegionNode>, f: RegionForm, a: UserAddress, nbId: Id)
    : (Result<UserAddress>, map<Id, RegionNode>)
  {
    if WantsNeighborhood(f) then
      var created := InsertStep(nodes, f.neighborhoodCustom, NeighborhoodLevel, Some(f.district));
      if created.Err? then (Err(created.error), nodes)
      else (Ok(a.(neighborhood := Some(nbId), neighborhoodCustom := "")), nodes[nbId := created.value])
    else (Ok(a), nodes)
  }

  /** The custom-street step: the address and the table after it. */
  function StreetStage(nodes: map<Id, RegionNode>, f: RegionForm, a: UserAddress, stId: Id)
    : (Result<UserAddress>, map<Id, RegionNode>)
  {
    if WantsStreet(f, a) then
      var created := InsertStep(nodes, f.streetCustom, StreetLevel, a.neighborhood);
      if created.Err? then (Err(created.error), nodes)
      else (Ok(a.(street := Some(stId), streetCustom := "")), nodes[stId := created.value])
    else (Ok(a), nodes)
  }

  /** setRegion on the region table: the new address (or the error) and the
      table afterwards. `nbId` and `stId` are the ids the database assigns to
      the nodes it may create. A failure of the street insert leaves the
      neighborhood node already inserted in place. */
  function SetRegionSpec(nodes: map<Id, RegionNode>, f: RegionForm, nbId: Id, stId: Id)
    : (r: (Result<UserAddress>, map<Id, RegionNode>))
    ensures r.0 == Err(MissingFields) <==> f.region == "" || f.district == ""
    ensures r.0 == Err(MissingFields) ==> r.1 == nodes
    ensures r.0.Err? ==> r.0.error in {MissingFields, ServerError}
  {
    if f.region == "" || f.district == "" then (Err(MissingFields), nodes)
    else
      var afterNeighborhood := NeighborhoodStage(nodes, f, BaseAddress(f), nbId);
      if afterNeighborhood.0.Err? then afterNeighborhood
      else StreetStage(afterNeighborhood.1, f, afterNeighborhood.0.value, stId)
  }

  /** On success the address keeps the given region and district, and the
      house fields take their defaults. */
  lemma SetRegionDefaults(nodes: map<Id, RegionNode>, f: RegionForm, nbId: Id, stId: Id)
    requires SetRegionSpec(nodes, f, nbId, stId).0.Ok?
    ensures var a := SetRegionSpec(nodes, f, nbId, stId).0.value;
            && a.region == f.region && a.district == f.district
            && a.houseType == (if f.houseType != "" then f.houseType else "private")
            && a.houseNumber == f.houseNumber && a.apartment == f.apartment
  {
    var a0 := BaseAddress(f);
    var s1 := NeighborhoodStage(nodes, f, a0, nbId);
    assert s1.0.Ok?;
    NeighborhoodStageAddress(nodes, f, a0, nbId);
    StreetStageAddress(s1.1, f, s1.0.value, stId);
  }

  /** The address after the neighborhood stage, when it succeeds. */
  lemma NeighborhoodStageAddress(nodes: map<Id, RegionNode>, f: RegionForm, a: UserAddress, nbId: Id)
    ensures var s := NeighborhoodStage(nodes, f, a, nbId);
            s.0.Ok? ==> s.0.value == if WantsNeighborhood(f) then a.(neighborhood := Some(nbId), neighborhoodCustom := "") else a
  {
  }

  /** The address after the street stage, when it succeeds. */
  lemma StreetStageAddress(nodes: map<Id, RegionNode>, f: RegionForm, a: UserAddress, stId: Id)
    ensures var s := StreetStage(nodes, f, a, stId);
            s.0.Ok? ==> s.0.value == if WantsStreet(f, a) then a.(street := Some(stId), streetCustom := "") else a
  {
  }

  /** The table after the neighborhood stage: one node more exactly when the insert succeeded. */
  lemma NeighborhoodStageTable(nodes: map<Id, RegionNode>, f: RegionForm, a: UserAddress, nbId: Id)
    ensures var created := InsertStep(nodes, f.neighborhoodCustom, NeighborhoodLevel, Some(f.district));
            NeighborhoodStage(nodes, f, a, nbId).1 ==
              if WantsNeighborhood(f) && created.Ok? then nodes[nbId := created.value] else nodes
  {
  }

  /** The table after the street stage: one node more exactly when the insert succeeded. */
  lemma StreetStageTable(nodes: map<Id, RegionNode>, f: RegionForm, a: UserAddress, stId: Id)
    ensures var created := InsertStep(nodes, f.streetCustom, StreetLevel, a.neighborhood);
            StreetStage(nodes, f, a, stId).1 ==
              if WantsStreet(f, a) && created.Ok? then nodes[stId := created.value] else nodes
  {
  }

  /** The neighborhood: a custom name without an id becomes a new node under
      the district, which the address then points to with the text cleared;
      otherwise no neighborhood node is made and the text is kept as given. */
  lemma SetRegionNeighborhood(nodes: map<Id, RegionNode>, f: RegionForm, nbId: Id, stId: Id)
    requires nbId != stId && nbId !in nodes
    requires SetRegionSpec(nodes, f, nbId, stId).0.Ok?
    ensures var (r, after) := SetRegionSpec(nodes, f, nbId, stId);
            if WantsNeighborhood(f) then
              && r.value.neighborhood == Some(nbId) && r.value.neighborhoodCustom == ""
              && nbId in after
              && after[nbId] == NewNode(Trim(f.neighborhoodCustom), NeighborhoodLevel, Some(f.district))
            else
              && r.value.neighborhood == IdOrNull(f.neighborhood)
              && r.value.neighborhoodCustom == f.neighborhoodCustom
              && nbId !in after
  {
    var a0 := BaseAddress(f);
    var s1 := NeighborhoodStage(nodes, f, a0, nbId);
    assert s1.0.Ok?;
    var s2 := StreetStage(s1.1, f, s1.0.value, stId);
    assert SetRegionSpec(nodes, f, nbId, stId) == s2;
    NeighborhoodStageAddress(nodes, f, a0, nbId);
    NeighborhoodStageTable(nodes, f, a0, nbId);
    StreetStageAddress(s1.1, f, s1.0.value, stId);
    StreetStageTable(s1.1, f, s1.0.value, stId);
  }

  /** The street: a custom name without an id becomes a new node under the
      address's neighborhood (given or just created), with the text cleared;
      without any neighborhood the street stays null and the text is kept. */
  lemma SetRegionStreet(nodes: map<Id, RegionNode>, f: RegionForm, nbId: Id, stId: Id)
    requires nbId != stId && nbId !in nodes && stId !in nodes
    requires SetRegionSpec(nodes, f, nbId, stId).0.Ok?
    ensures var (r, after) := SetRegionSpec(nodes, f, nbId, stId);
            if f.street == "" && f.streetCustom != "" && r.value.neighborhood.Some? then
              && r.value.street == Some(stId) && r.value.streetCustom == ""
              && stId in after
              && after[stId] == NewNode(Trim(f.streetCustom), StreetLevel, r.value.neighborhood)
            else
              && r.value.street == IdOrNull(f.street)
              && r.value.streetCustom == f.streetCustom
              && stId !in after
  {
    var a0 := BaseAddress(f);
    var s1 := NeighborhoodStage(nodes, f, a0, nbId);
    assert s1.0.Ok?;
    var a1 := s1.0.value;
    var s2 := StreetStage(s1.1, f, a1, stId);
    assert SetRegionSpec(nodes, f, nbId, stId) == s2;
    NeighborhoodStageAddress(nodes, f, a0, nbId);
    NeighborhoodStageTable(nodes, f, a0, nbId);
    assert stId !in s1.1;
    StreetStageAddress(s1.1, f, a1, stId);
    StreetStageTable(s1.1, f, a1, stId);
  }

  /** Street text with neither a neighborhood id nor a custom neighborhood
      stores no node and keeps the text. */
  lemma StreetTextWithoutNeighborhood(nodes: map<Id, RegionNode>, f: RegionForm, nbId: Id, stId: Id)
    requires f.region != "" && f.district != ""
    requires f.neighborhood == "" && f.neighborhoodCustom == "" && f.street == "" && f.streetCustom != ""
    ensures SetRegionSpec(nodes, f, nbId, stId) == (Ok(BaseAddress(f)), nodes)
    ensures BaseAddress(f).street.None? && BaseAddress(f).streetCustom == f.streetCustom
  {
  }

  /** The two inserts are not atomic: when the street insert fails after the
      neighborhood node was created, the request fails and the node stays. */
  lemma PartialFailureKeepsNeighborhood(nodes: map<Id, RegionNode>, f: RegionForm, nbId: Id, stId: Id)
    requires f.region != "" && f.district != "" && WantsNeighborhood(f) && f.street == "" && f.streetCustom != ""
    requires InsertStep(nodes, f.neighborhoodCustom, NeighborhoodLevel, Some(f.district)).Ok?
    requires var n := InsertStep(nodes, f.neighborhoodCustom, NeighborhoodLevel, Some(f.district)).value;
             InsertStep(nodes[nbId := n], f.streetCustom, StreetLevel, Some(nbId)).Err?
    ensures SetRegionSpec(nodes, f, nbId, stId).0 == Err(ServerError)
    ensures nbId in SetRegionSpec(nodes, f, nbId, stId).1
  {
    var a0 := BaseAddress(f);
    var s1 := NeighborhoodStage(nodes, f, a0, nbId);
    NeighborhoodStageAddress(nodes, f, a0, nbId);
    NeighborhoodStageTable(nodes, f, a0, nbId);
    assert s1.0.Ok? && WantsStreet(f, s1.0.value);
    StreetStageTable(s1.1, f, s1.0.value, stId);
  }

  /** The neighborhood stage keeps a valid table valid. */
  lemma {:induction false} NeighborhoodStageValid(nodes: map<Id, RegionNode>, f: RegionForm, a: UserAddress, nbId: Id)
    requires TableValid(nodes) && nbId !in nodes
    ensures TableValid(NeighborhoodStage(nodes, f, a, nbId).1)
  {
    if WantsNeighborhood(f) {
      var created := InsertStep(nodes, f.neighborhoodCustom, NeighborhoodLevel, Some(f.district));
      if created.Ok? {
        AddKeepsValid(nodes, nbId, created.value);
      }
    }
  }

  /** The street stage keeps a valid table valid. */
  lemma {:induction false} StreetStageValid(nodes: map<Id, RegionNode>, f: RegionForm, a: UserAddress, stId: Id)
    requires TableValid(nodes) && stId !in nodes
    ensures TableValid(StreetStage(nodes, f, a, stId).1)
  {
    if WantsStreet(f, a) {
      var created := InsertStep(nodes, f.streetCustom, StreetLevel, a.neighborhood);
      if created.Ok? {
        AddKeepsValid(nodes, stId, created.value);
      }
    }
  }

  /** setRegion keeps the region table valid. */
  lemma {:induction false} SetRegionKeepsValid(nodes: map<Id, RegionNode>, f: RegionForm, nbId: Id, stId: Id)
    requires TableValid(nodes) && nbId != stId && nbId !in nodes && stId !in nodes
    ensures TableValid(SetRegionSpec(nodes, f, nbId, stId).1)
  {
    if f.region != "" && f.district != "" {
      var s1 := NeighborhoodStage(nodes, f, BaseAddress(f), nbId);
      NeighborhoodStageValid(nodes, f, BaseAddress(f), nbId);
      if s1.0.Ok? {
        assert stId !in s1.1;
        StreetStageValid(s1.1, f, s1.0.value, stId);
      }
    }
  }

  /** setRegion never changes or deletes a stored node, and adds none but
      the two new ids. */
  lemma {:induction false} SetRegionOnlyAdds(nodes: map<Id, RegionNode>, f: RegionForm, nbId: Id, stId: Id)
    requires nbId != stId && nbId !in nodes && stId !in nodes
    ensures var after := SetRegionSpec(nodes, f, nbId, stId).1;
            && (forall id | id in nodes :: id in after && after[id] == nodes[id])
            && (forall id | id in after :: id in nodes || id == nbId || id == stId)
  {
    if f.region != "" && f.district != "" {
      var s1 := NeighborhoodStage(nodes, f, BaseAddress(f), nbId);
      NeighborhoodStageTable(nodes, f, BaseAddress(f), nbId);
      if s1.0.Ok? {
        StreetStageTable(s1.1, f, s1.0.value, stId);
      }
    }
  }

  /** The signed-in user's own record. */
  class UserAccount {
    var firstName: string
    var lastName: string
    var address: Option<UserAddress>

    constructor (firstName: string, lastName: string, address: Option<UserAddress>)
      ensures this.firstName == firstName && this.lastName == lastName && this.address == address
    {
      this.firstName := firstName;
      this.lastName := lastName;
      this.address := address;
    }

    /** PUT /api/users/region. The whole previous address is replaced. */
    method SetRegion(table: RegionTable, f: RegionForm, nbId: Id, stId: Id) returns (r: Result<UserAddress>)
      requires table.Valid() && nbId != stId && nbId !in table.nodes && stId !in table.nodes
      modifies this, table
      ensures table.Valid()
      ensures (r, table.nodes) == SetRegionSpec(old(table.nodes), f, nbId, stId)
      ensures address == if r.Ok? then Some(r.value) else old(address)
      ensures firstName == old(firstName) && lastName == old(lastName)
    {
      if f.region == "" || f.district == "" {
        return Err(MissingFields);
      }
      var a := UserAddress(f.region, f.district,
                           if f.neighborhood != "" then Some(f.neighborhood) else None,
                           if f.street != "" then Some(f.street) else None,
                           f.neighborhoodCustom, f.streetCustom,
                           if f.houseType != "" then f.houseType else "private",
                           f.houseNumber, f.apartment);
      ghost var afterNeighborhood := NeighborhoodStage(table.nodes, f, a, nbId);
      if f.neighborhood == "" && f.neighborhoodCustom != "" {
        var created := table.Insert(nbId, f.neighborhoodCustom, NeighborhoodLevel, Some(f.district));
        if created.Err? {
          return Err(created.error);
        }
        a := a.(neighborhood := Some(nbId));
        a := a.(neighborhoodCustom := "");
      }
      assert afterNeighborhood == (Ok(a), table.nodes);
      if f.street == "" && f.streetCustom != "" && a.neighborhood.Some? {
        var created := table.Insert(stId, f.streetCustom, StreetLevel, a.neighborhood);
        if created.Err? {
          return Err(created.error);
        }
        a := a.(street := Some(stId));
        a := a.(streetCustom := "");
      }
      address := Some(a);
      return Ok(a);
    }

    /** PUT /api/users/me: only firstName and lastName, each only when given. */
    method UpdateProfile(newFirstName: Option<string>, newLastName: Option<string>)
      modifies this
      ensures firstName == if newFirstName.Some? then newFirstName.value else old(firstName)
      ensures lastName == if newLastName.Some? then newLastName.value else old(lastName)
      ensures address == old(address)
    {
      if newFirstName.Some? { firstName := newFirstName.value; }
      if newLastName.Some? { lastName := newLastName.value; }
    }
  }
}
