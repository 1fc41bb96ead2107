/** The Request handlers: create, the owner's edit and cancel, the admin's
    status update (which has no transition table), the listing filter and the
    statistics match and tally. Each handler reads one document, changes named
    fields of a local copy and saves it; a save that schema validation refuses
    reaches the catch-all and is answered 500. */
module RequestController {
  import opened Common
  import opened Addresses
  import opened Principals
  import opened Scope
  import opened Tallies
  import opened RequestModel

  /** What a filter sees of a Request. */
  function View(r: Request): TicketView
  {
    TicketView(StatusName(r.status), Some(CategoryName(r.category)), r.requestType, r.address.Refs())
  }

  /** `if (x !== undefined) doc.f = x`, through the schema's trim setter. */
  function AssignTrimmed(current: string, given: Option<string>): string
  {
    if given.Some? then Trim(given.value) else current
  }

  /** `if (category !== undefined) doc.category = category`; a name outside
      the enum is refused by the save, so it never reaches a stored document. */
  function AssignCategory(current: Category, given: Option<string>): Category
  {
    if given.Some? && ParseCategory(given.value).Some? then ParseCategory(given.value).value else current
  }

  /** The document create saves, or why it is refused. */
  function CreateStep(user: Principal, category: string, description: string, contactFirstName: string,
                      contactLastName: string, contactPhone: string): (r: Result<Request>)
    ensures r == Err(MissingFields) <==>
              category == "" || description == "" || contactFirstName == "" || contactLastName == "" || contactPhone == ""
    ensures r == Err(NoAddress) <==>
              category != "" && description != "" && contactFirstName != "" && contactLastName != "" && contactPhone != ""
              && user.address.None?
    ensures r.Ok? <==>
              && user.address.Some? && ParseCategory(category).Some?
              && Trim(description) != "" && Trim(contactFirstName) != "" && Trim(contactLastName) != "" && Trim(contactPhone) != ""
    ensures r.Err? ==> r.error in {MissingFields, NoAddress, ServerError}
    ensures r.Ok? ==>
              && WellFormed(r.value)
              && r.value.user == user.id
              && r.value.address == TicketAddress(user.address.value)
              && r.value.category == ParseCategory(category).value
              && r.value.description == Trim(description)
              && r.value.contactFirstName == Trim(contactFirstName)
              && r.value.contactLastName == Trim(contactLastName)
              && r.value.contactPhone == Trim(contactPhone)
              && r.value.status == Pending
              && r.value.assignedAdmin == None && r.value.requestType == None
              && r.value.rejectionReason == "" && r.value.closingNote == "" && r.value.cancelReason == ""
  {
    if category == "" || description == "" || contactFirstName == "" || contactLastName == "" || contactPhone == "" then
      Err(MissingFields)
    else if user.address.None? then Err(NoAddress)
    else if ParseCategory(category).None? then Err(ServerError)
    else
      TrimIdempotent(description); TrimIdempotent(contactFirstName);
      TrimIdempotent(contactLastName); TrimIdempotent(contactPhone);
      var request := NewRequest(user.id, ParseCategory(category).value, Trim(description), Trim(contactFirstName),
                                Trim(contactLastName), Trim(contactPhone), TicketAddress(user.address.value));
      if WellFormed(request) then Ok(request) else Err(ServerError)
  }

  /** The owner's edit of a document: only while pending, and only the given fields change. */
  function EditStep(t: Request, description: Option<string>, contactFirstName: Option<string>,
                    contactLastName: Option<string>, contactPhone: Option<string>,
                    category: Option<string>): (r: Result<Request>)
    ensures r == Err(NotEditable) <==> t.status != Pending
    ensures r.Err? ==> r.error in {NotEditable, ServerError}
    ensures r.Ok? ==>
              r.value == t.(description := AssignTrimmed(t.description, description),
                            contactFirstName := AssignTrimmed(t.contactFirstName, contactFirstName),
                            contactLastName := AssignTrimmed(t.contactLastName, contactLastName),
                            contactPhone := AssignTrimmed(t.contactPhone, contactPhone),
                            category := AssignCategory(t.category, category))
    ensures r.Ok? ==> WellFormed(r.value)
    ensures WellFormed(t) ==>
              (r.Ok? <==>
                 && t.status == Pending
                 && (category.Some? ==> ParseCategory(category.value).Some?)
                 && (description.Some? ==> Trim(description.value) != "")
                 && (contactFirstName.Some? ==> Trim(contactFirstName.value) != "")
                 && (contactLastName.Some? ==> Trim(contactLastName.value) != "")
                 && (contactPhone.Some? ==> Trim(contactPhone.value) != ""))
  {
    if t.status != Pending then Err(NotEditable)
    else if category.Some? && ParseCategory(category.value).None? then Err(ServerError)
    else
      var edited := t.(description := AssignTrimmed(t.description, description),
                       contactFirstName := AssignTrimmed(t.contactFirstName, contactFirstName),
                       contactLastName := AssignTrimmed(t.contactLastName, contactLastName),
                       contactPhone := AssignTrimmed(t.contactPhone, contactPhone),
                       category := AssignCategory(t.category, category));
      TrimmedAssignments(t, description, contactFirstName, contactLastName, contactPhone);
      if WellFormed(edited) then Ok(edited) else Err(ServerError)
  }

  lemma TrimmedAssignments(t: Request, description: Option<string>, contactFirstName: Option<string>,
                           contactLastName: Option<string>, contactPhone: Option<string>)
    ensures description.Some? ==> Trim(Trim(description.value)) == Trim(description.value)
    ensures contactFirstName.Some? ==> Trim(Trim(contactFirstName.value)) == Trim(contactFirstName.value)
    ensures contactLastName.Some? ==> Trim(Trim(contactLastName.value)) == Trim(contactLastName.value)
    ensures contactPhone.Some? ==> Trim(Trim(contactPhone.value)) == Trim(contactPhone.value)
  {
    if description.Some? { TrimIdempotent(description.value); }
    if contactFirstName.Some? { TrimIdempotent(contactFirstName.value); }
    if contactLastName.Some? { TrimIdempotent(contactLastName.value); }
    if contactPhone.Some? { TrimIdempotent(contactPhone.value); }
  }

  /** A pending document's edit is saved exactly when a given category is
      in the enum and the edited document is well formed. */
  lemma EditPending(t: Request, description: Option<string>, contactFirstName: Option<string>,
                    contactLastName: Option<string>, contactPhone: Option<string>, category: Option<string>,
                    edited: Request)
    requires t.status == Pending
    requires edited == t.(description := AssignTrimmed(t.description, description),
                          contactFirstName := AssignTrimmed(t.contactFirstName, contactFirstName),
                          contactLastName := AssignTrimmed(t.contactLastName, contactLastName),
                          contactPhone := AssignTrimmed(t.contactPhone, contactPhone),
                          category := AssignCategory(t.category, category))
    ensures EditStep(t, description, contactFirstName, contactLastName, contactPhone, category) ==
              if (category.Some? && ParseCategory(category.value).None?) || !WellFormed(edited) then Err(ServerError)
              else Ok(edited)
  {
  }

  /** The admin's status update. No transition table: any status name is
      written over any current status; "rejected" needs a non-empty reason,
      which is stored untrimmed; a name outside the enum fails validation. */
  function StatusStep(t: Request, actor: Id, status: string, rejectionReason: string, closingNote: string,
                      requestType: Option<string>): (r: Result<Request>)
    ensures r == Err(MissingReason) <==> status == "rejected" && rejectionReason == ""
    ensures r == Err(ServerError) <==> status != "rejected" && ParseStatus(status).None?
    ensures r.Err? ==> r.error in {MissingReason, ServerError}
    ensures r.Ok? ==>
              r.value == t.(status := ParseStatus(status).value,
                            assignedAdmin := if status == "in_review" then Some(actor) else t.assignedAdmin,
                            rejectionReason := if rejectionReason != "" then rejectionReason else t.rejectionReason,
                            closingNote := if closingNote != "" then closingNote else t.closingNote,
                            requestType := if requestType.None? then t.requestType
                                           else if requestType.value == "" then None else Some(requestType.value))
    ensures r.Ok? && WellFormed(t) ==> WellFormed(r.value)
  {
    if status == "rejected" && rejectionReason == "" then Err(MissingReason)
    else match ParseStatus(status)
      case None => Err(ServerError)
      case Some(s) =>
        Ok(t.(status := s,
              assignedAdmin := if status == "in_review" then Some(actor) else t.assignedAdmin,
              rejectionReason := if rejectionReason != "" then rejectionReason else t.rejectionReason,
              closingNote := if closingNote != "" then closingNote else t.closingNote,
              requestType := if requestType.None? then t.requestType
                             else if requestType.value == "" then None else Some(requestType.value)))
  }

  /** The statuses the owner cannot cancel from. */
  predicate Uncancellable(s: RequestStatus)
  {
    s in {Resolved, Rejected, Cancelled}
  }

  /** The owner's cancel: refused from resolved, rejected and cancelled. */
  function CancelStep(t: Request, cancelReason: string): (r: Result<Request>)
    ensures r.Err? <==> Uncancellable(t.status)
    ensures r.Err? ==> r.error == NotCancellable
    ensures r.Ok? ==>
              r.value == t.(status := Cancelled,
                            cancelReason := if cancelReason != "" then Trim(cancelReason) else t.cancelReason)
  {
    if Uncancellable(t.status) then Err(NotCancellable)
    else Ok(t.(status := Cancelled, cancelReason := if cancelReason != "" then Trim(cancelReason) else t.cancelReason))
  }

  /** Any target status is reached from any current status, a terminal one
      included, once a reason is given for "rejected", whatever note and
      type accompany it. */
  lemma AdminUpdateUnrestricted(t: Request, actor: Id, to: RequestStatus, reason: string,
                                closingNote: string, requestType: Option<string>)
    requires to == Rejected ==> reason != ""
    ensures StatusStep(t, actor, StatusName(to), reason, closingNote, requestType).Ok?
    ensures StatusStep(t, actor, StatusName(to), reason, closingNote, requestType).value.status == to
  {
    ParseStatusName(to);
  }

  /** The rejection reason is not trimmed: white space alone is accepted and stored. */
  lemma WhitespaceReasonAccepted(t: Request, actor: Id)
    ensures StatusStep(t, actor, "rejected", " ", "", None) == Ok(t.(status := Rejected, rejectionReason := " "))
  {
  }

  /** Pending to in_review assigns the acting admin; resolving afterwards needs
      no reason and keeps that admin. */
  lemma ReviewThenResolve(t: Request, admin: Id)
    requires t.status == Pending
    ensures var reviewed := StatusStep(t, admin, "in_review", "", "", None);
            && reviewed.Ok? && reviewed.value.status == InReview && reviewed.value.assignedAdmin == Some(admin)
            && var resolved := StatusStep(reviewed.value, admin, "resolved", "", "", None);
               resolved.Ok? && resolved.value.status == Resolved && resolved.value.assignedAdmin == Some(admin)
  {
  }

  /** The owner can cancel exactly outside {resolved, rejected, cancelled}. */
  lemma CancelIff(t: Request, reason: string)
    ensures CancelStep(t, reason).Ok? <==> t.status == Pending || t.status == InReview
  {
  }

  /** getAll: the listing filter, built by successive assignment. */
  method ListFilter(user: Principal, status: string, category: string, requestType: string, regionId: string,
                    allowedTypes: Option<seq<Id>>) returns (f: Filter)
    ensures forall v :: Matches(f, v) <==>
              && (status != "" ==> v.status == status)
              && (category != "" ==> v.category == Some(category))
              && ListingSubtypeScope(v.subtype, requestType, allowedTypes)
              && ListingRegionScope(v.refs, regionId, AdminRegion(user))
  {
    f := Unfiltered;
    if status != "" { f := f.(status := Some(status)); }
    if category != "" { f := f.(category := Some(category)); }
    if requestType != "" { f := f.(subtype := IdEq(requestType)); }
    if user.role == Admin && user.assignedRegion.Some? {
      f := f.(region := AnyOf4(user.assignedRegion.value.region));
    }
    if regionId != "" { f := f.(region := AnyOf4(regionId)); }
    if allowedTypes.Some? && |allowedTypes.value| > 0 { f := f.(subtype := IdIn(allowedTypes.value)); }
  }

  /** getStats: the `$match` stage. An explicit regionId takes precedence over the admin's region. */
  method StatsMatch(user: Principal, regionId: string, allowedTypes: Option<seq<Id>>) returns (f: Filter)
    ensures forall v :: Matches(f, v) <==>
              ListingSubtypeScope(v.subtype, "", allowedTypes) && ListingRegionScope(v.refs, regionId, AdminRegion(user))
  {
    f := Unfiltered;
    if regionId != "" {
      f := f.(region := AnyOf4(regionId));
    } else if user.role == Admin && user.assignedRegion.Some? {
      f := f.(region := AnyOf4(user.assignedRegion.value.region));
    }
    if allowedTypes.Some? && |allowedTypes.value| > 0 { f := f.(subtype := IdIn(allowedTypes.value)); }
  }

  /** The four status keys getStats always reports. */
  const StatsKeys: seq<string> := ["pending", "in_review", "resolved", "rejected"]

  /** getStats: the result object. `total` is the sum of the grouped counts;
      the four keys default to 0; any other grouped status appears with its count. */
  method StatsResult(groups: seq<Group>) returns (result: map<string, nat>)
    ensures "total" in result
    ensures NoTotalKey(groups) ==> result["total"] == Sum(groups)
    ensures forall k | k in StatsKeys :: k in result && result[k] == CountOr0(groups, k)
    ensures forall k | k != "total" && k !in StatsKeys :: k in result <==> LastCount(groups, k).Some?
    ensures forall k | k != "total" && k in result && LastCount(groups, k).Some? :: result[k] == LastCount(groups, k).value
  {
    var init := map["total" := 0, "pending" := 0, "in_review" := 0, "resolved" := 0, "rejected" := 0];
    result := Tally(init, groups);
    if NoTotalKey(groups) { TallyTotal(init, groups); }
    forall k | k != "total"
      ensures k in result <==> k in init || LastCount(groups, k).Some?
      ensures k in result ==> result[k] == if LastCount(groups, k).Some? then LastCount(groups, k).value else init[k]
    {
      TallyKey(init, groups, k);
    }
  }

  /** Every document in `docs` passed schema validation. */
  ghost predicate AllWellFormed(docs: map<Id, Request>)
  {
    forall id | id in docs :: WellFormed(docs[id])
  }

  /** Saving a valid document keeps the collection valid. */
  lemma SaveKeepsWellFormed(docs: map<Id, Request>, id: Id, r: Request)
    requires AllWellFormed(docs) && WellFormed(r)
    ensures AllWellFormed(docs[id := r])
  {
  }

  /** The Request collection. */
  /** `findOne({ _id: id, user: caller })`: the document exists and belongs to the caller. */
  predicate Owns(docs: map<Id, Request>, id: Id, caller: Id)
  {
    id in docs && docs[id].user == caller
  }

  class RequestCollection {
    var docs: map<Id, Request>

    /** Every stored document passed schema validation. */
    ghost predicate Valid()
      reads this
    {
      AllWellFormed(docs)
    }

    constructor ()
      ensures docs == map[] && Valid()
    {
      docs := map[];
    }

    /** POST /api/requests. `newId` is the id the database assigns. */
    method Create(newId: Id, user: Principal, category: string, description: string, contactFirstName: string,
                  contactLastName: string, contactPhone: string) returns (r: Result<Request>)
      requires Valid() && newId !in docs
      modifies this
      ensures Valid()
      ensures r == CreateStep(user, category, description, contactFirstName, contactLastName, contactPhone)
      ensures docs == if r.Ok? then old(docs)[newId := r.value] else old(docs)
    {
      if category == "" || description == "" || contactFirstName == "" || contactLastName == "" || contactPhone == "" {
        return Err(MissingFields);
      }
      if user.address.None? {
        return Err(NoAddress);
      }
      var parsed := ParseCategory(category);
      if parsed.None? {
        return Err(ServerError);
      }
      var request := NewRequest(user.id, parsed.value, Trim(description), Trim(contactFirstName),
                                Trim(contactLastName), Trim(contactPhone), TicketAddress(user.address.value));
      if !WellFormed(request) {
        return Err(ServerError);
      }
      SaveKeepsWellFormed(docs, newId, request);
      docs := docs[newId := request];
      return Ok(request);
    }

    /** PUT /api/requests/:id (the owner's edit). */
    method Update(id: Id, caller: Principal, description: Option<string>, contactFirstName: Option<string>,
                  contactLastName: Option<string>, contactPhone: Option<string>, category: Option<string>)
      returns (r: Result<Request>)
      requires Valid()
      modifies this
      ensures Valid()
      ensures r == if Owns(old(docs), id, caller.id)
                   then EditStep(old(docs)[id], description, contactFirstName, contactLastName, contactPhone, category)
                   else Err(NotFound)
      ensures docs == if r.Ok? then old(docs)[id := r.value] else old(docs)
    {
      if !Owns(docs, id, caller.id) {
        return Err(NotFound);
      }
      var request := docs[id];
      ghost var stored := request;
      if request.status != Pending {
        return Err(NotEditable);
      }
      if description.Some? { request := request.(description := Trim(description.value)); }
      assert request.description == AssignTrimmed(stored.description, description);
      if contactFirstName.Some? { request := request.(contactFirstName := Trim(contactFirstName.value)); }
      assert request.contactFirstName == AssignTrimmed(stored.contactFirstName, contactFirstName);
      if contactLastName.Some? { request := request.(contactLastName := Trim(contactLastName.value)); }
      assert request.contactLastName == AssignTrimmed(stored.contactLastName, contactLastName);
      if contactPhone.Some? { request := request.(contactPhone := Trim(contactPhone.value)); }
      assert request.contactPhone == AssignTrimmed(stored.contactPhone, contactPhone);
      var categoryValid := category.None? || ParseCategory(category.value).Some?;
      if category.Some? && categoryValid {
        request := request.(category := ParseCategory(category.value).value);
      }
      EditPending(stored, description, contactFirstName, contactLastName, contactPhone, category, request);
      if !categoryValid || !WellFormed(request) {
        return Err(ServerError);
      }
      SaveKeepsWellFormed(docs, id, request);
      docs := docs[id := request];
      return Ok(request);
    }

    /** PUT /api/requests/:id/status (admin). */
    method UpdateStatus(id: Id, actor: Principal, status: string, rejectionReason: string, closingNote: string,
                        requestType: Option<string>) returns (r: Result<Request>)
      requires Valid()
      modifies this
      ensures Valid()
      ensures r == if id in old(docs)
                   then StatusStep(old(docs)[id], actor.id, status, rejectionReason, closingNote, requestType)
                   else Err(NotFound)
      ensures docs == if r.Ok? then old(docs)[id := r.value] else old(docs)
    {
      if id !in docs {
        return Err(NotFound);
      }
      var request := docs[id];
      if status == "rejected" && rejectionReason == "" {
        return Err(MissingReason);
      }
      var parsed := ParseStatus(status);
      if parsed.None? {
        return Err(ServerError);
      }
      request := request.(status := parsed.value);
      request := request.(assignedAdmin := if status == "in_review" then Some(actor.id) else request.assignedAdmin);
      request := request.(rejectionReason := if rejectionReason != "" then rejectionReason else request.rejectionReason);
      request := request.(closingNote := if closingNote != "" then closingNote else request.closingNote);
      request := request.(requestType := if requestType.None? then request.requestType
                                         else if requestType.value == "" then None else Some(requestType.value));
      SaveKeepsWellFormed(docs, id, request);
      docs := docs[id := request];
      return Ok(request);
    }

    /** PUT /api/requests/:id/cancel (the owner). */
    method CancelRequest(id: Id, caller: Principal, cancelReason: string) returns (r: Result<Request>)
      requires Valid()
      modifies this
      ensures Valid()
      ensures r == if Owns(old(docs), id, caller.id) then CancelStep(old(docs)[id], cancelReason) else Err(NotFound)
      ensures docs == if r.Ok? then old(docs)[id := r.value] else old(docs)
    {
      if !Owns(docs, id, caller.id) {
        return Err(NotFound);
      }
      var request := docs[id];
      if Uncancellable(request.status) {
        return Err(NotCancellable);
      }
      request := request.(status := Cancelled);
      if cancelReason != "" { request := request.(cancelReason := Trim(cancelReason)); }
      docs := docs[id := request];
      return Ok(request);
    }
  }
}
