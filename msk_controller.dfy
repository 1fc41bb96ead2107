/** The MskOrder handlers: create, the owner's edit while pending, the
    admin's status update through an explicit transition table, the user's
    confirm and cancel, and the listing filter. */
module MskController {
  import opened Common
  import opened Addresses
  import opened Principals
  import opened Scope
  import opened MskOrderModel

  /** What a filter sees of an order: its MSK category is the sub-type. */
  function View(o: MskOrder): TicketView
  {
    TicketView(StatusName(o.status), None, Some(o.category), o.address.Refs())
  }

  /** `if (x !== undefined) order.f = x`, through the schema's trim setter. */
  function AssignTrimmed(current: string, given: Option<string>): string
  {
    if given.Some? then Trim(given.value) else current
  }

  /** createOrder: the order saved, or why it is refused. */
  function CreateStep(user: Principal, categoryId: string, description: string, contactFirstName: string,
                      contactLastName: string, contactPhone: string): (r: Result<MskOrder>)
    ensures r == Err(MissingFields) <==>
              categoryId == "" || description == "" || contactFirstName == "" || contactLastName == "" || contactPhone == ""
    ensures r == Err(NoAddress) <==>
              categoryId != "" && description != "" && contactFirstName != "" && contactLastName != "" && contactPhone != ""
              && user.address.None?
    ensures r.Ok? <==>
              && categoryId != "" && user.address.Some?
              && Trim(description) != "" && Trim(contactFirstName) != "" && Trim(contactLastName) != "" && Trim(contactPhone) != ""
    ensures r.Err? ==> r.error in {MissingFields, NoAddress, ServerError}
    ensures r.Ok? ==>
              && WellFormed(r.value)
              && r.value.user == user.id && r.value.category == categoryId
              && r.value.address == TicketAddress(user.address.value)
              && r.value.description == Trim(description)
              && r.value.contactFirstName == Trim(contactFirstName)
              && r.value.contactLastName == Trim(contactLastName)
              && r.value.contactPhone == Trim(contactPhone)
              && r.value.status == Pending
              && r.value.assignedAdmin == None && r.value.confirmedByUser == None
              && r.value.rejectionReason == "" && r.value.cancelReason == ""
  {
    if categoryId == "" || description == "" || contactFirstName == "" || contactLastName == "" || contactPhone == "" then
      Err(MissingFields)
    else if user.address.None? then Err(NoAddress)
    else
      var order := NewOrder(user.id, categoryId, Trim(description), Trim(contactFirstName), Trim(contactLastName),
                            Trim(contactPhone), TicketAddress(user.address.value));
      if Saveable(order) then Ok(order) else Err(ServerError)
  }

  /** updateOrder on one order: only while pending, and only the given
      fields change; the category cannot be edited. */
  function EditStep(t: MskOrder, description: Option<string>, contactFirstName: Option<string>,
                    contactLastName: Option<string>, contactPhone: Option<string>): (r: Result<MskOrder>)
    ensures r == Err(NotEditable) <==> t.status != Pending
    ensures r.Err? ==> r.error in {NotEditable, ServerError}
    ensures r.Ok? ==>
              r.value == t.(description := AssignTrimmed(t.description, description),
                            contactFirstName := AssignTrimmed(t.contactFirstName, contactFirstName),
                            contactLastName := AssignTrimmed(t.contactLastName, contactLastName),
                            contactPhone := AssignTrimmed(t.contactPhone, contactPhone))
    ensures r.Ok? && WellFormed(t) ==> WellFormed(r.value)
    ensures WellFormed(t) ==>
              (r.Ok? <==>
                 && t.status == Pending
                 && (description.Some? ==> Trim(description.value) != "")
                 && (contactFirstName.Some? ==> Trim(contactFirstName.value) != "")
                 && (contactLastName.Some? ==> Trim(contactLastName.value) != "")
                 && (contactPhone.Some? ==> Trim(contactPhone.value) != ""))
  {
    if t.status != Pending then Err(NotEditable)
    else
      var edited := t.(description := AssignTrimmed(t.description, description),
                       contactFirstName := AssignTrimmed(t.contactFirstName, contactFirstName),
                       contactLastName := AssignTrimmed(t.contactLastName, contactLastName),
                       contactPhone := AssignTrimmed(t.contactPhone, contactPhone));
      if Saveable(edited) then Ok(edited) else Err(ServerError)
  }

  /** A pending order's edit is saved exactly when the edited order is saveable. */
  lemma EditPending(t: MskOrder, description: Option<string>, contactFirstName: Option<string>,
                    contactLastName: Option<string>, contactPhone: Option<string>, edited: MskOrder)
    requires t.status == Pending
    requires edited == t.(description := AssignTrimmed(t.description, description),
                          contactFirstName := AssignTrimmed(t.contactFirstName, contactFirstName),
                          contactLastName := AssignTrimmed(t.contactLastName, contactLastName),
                          contactPhone := AssignTrimmed(t.contactPhone, contactPhone))
    ensures EditStep(t, description, contactFirstName, contactLastName, contactPhone) ==
              if Saveable(edited) then Ok(edited) else Err(ServerError)
  {
  }

  /** `allowedTransitions[order.status]`, with [] for a status that has no entry. */
  function AllowedTargets(from: OrderStatus): seq<string>
  {
    match from
    case Pending => ["in_review", "pending_confirmation", "rejected"]
    case InReview => ["pending", "pending_confirmation", "rejected"]
    case PendingConfirmation => ["pending", "in_review", "rejected"]
    case _ => []
  }

  /** The table on statuses: each open status reaches the other two open
      statuses and rejected. */
  function AllowedNext(from: OrderStatus): set<OrderStatus>
  {
    match from
    case Pending => {InReview, PendingConfirmation, Rejected}
    case InReview => {Pending, PendingConfirmation, Rejected}
    case PendingConfirmation => {Pending, InReview, Rejected}
    case _ => {}
  }

  /** Every entry of the table is a status name, so the string table and the
      status table agree. */
  lemma TableNamesStatuses(from: OrderStatus, status: string)
    ensures status in AllowedTargets(from) <==>
              ParseStatus(status).Some? && ParseStatus(status).value in AllowedNext(from)
  {
    if ParseStatus(status).Some? && ParseStatus(status).value in AllowedNext(from) {
      assert StatusName(ParseStatus(status).value) == status;
    }
  }

  /** updateOrderStatus on one order: the table check first, then the
      reason check; the reason is neither trimmed nor required non-blank. */
  function AdminStep(t: MskOrder, actor: Id, status: string, rejectionReason: string): (r: Result<MskOrder>)
    ensures r == Err(InvalidTransition(StatusName(t.status), status)) <==> status !in AllowedTargets(t.status)
    ensures r == Err(MissingReason) <==>
              status in AllowedTargets(t.status) && status == "rejected" && rejectionReason == ""
    ensures r.Ok? ==>
              r.value == t.(status := ParseStatus(status).value,
                            assignedAdmin := if status == "in_review" then Some(actor) else t.assignedAdmin,
                            rejectionReason := if rejectionReason != "" then rejectionReason else t.rejectionReason)
    ensures r.Ok? ==> r.value.status in AllowedNext(t.status)
    ensures r.Ok? && WellFormed(t) ==> WellFormed(r.value)
  {
    TableNamesStatuses(t.status, status);
    match ParseStatus(status)
    case None => Err(InvalidTransition(StatusName(t.status), status))
    case Some(target) =>
      if target !in AllowedNext(t.status) then Err(InvalidTransition(StatusName(t.status), status))
      else if target == Rejected && rejectionReason == "" then Err(MissingReason)
      else
        Ok(t.(status := target,
              assignedAdmin := if target == InReview then Some(actor) else t.assignedAdmin,
              rejectionReason := if rejectionReason != "" then rejectionReason else t.rejectionReason))
  }

  /** The admin table, stated on statuses. */
  lemma AdminTable(t: MskOrder, actor: Id, to: OrderStatus, rejectionReason: string)
    requires rejectionReason != ""
    ensures AdminStep(t, actor, StatusName(to), rejectionReason).Ok? <==>
              && (t.status == Pending || t.status == InReview || t.status == PendingConfirmation)
              && to != t.status
              && (to == Pending || to == InReview || to == PendingConfirmation || to == Rejected)
  {
  }

  /** An admin never confirms or cancels an order. */
  lemma AdminNeverConfirms(t: MskOrder, actor: Id, status: string, rejectionReason: string)
    ensures var r := AdminStep(t, actor, status, rejectionReason);
            r.Ok? ==> !Final(t.status) && r.value.status != Confirmed && r.value.status != Cancelled
  {
    var r := AdminStep(t, actor, status, rejectionReason);
    if r.Ok? {
      assert r.value.status in AllowedNext(t.status);
    }
  }

  /** The rejection reason is not trimmed: white space alone is accepted and stored. */
  lemma WhitespaceReasonAccepted(t: MskOrder, actor: Id)
    requires t.status == Pending
    ensures AdminStep(t, actor, "rejected", " ") == Ok(t.(status := Rejected, rejectionReason := " "))
  {
    TableNamesStatuses(t.status, "rejected");
  }

  /** confirmOrder on one order: only from pending_confirmation; a true flag
      confirms, anything else sends the order back to in_review with the same
      assigned admin. */
  function ConfirmStep(t: MskOrder, confirmed: Option<bool>): (r: Result<MskOrder>)
    ensures r.Err? <==> t.status != PendingConfirmation
    ensures r.Err? ==> r.error == NotConfirmable
    ensures r.Ok? ==>
              r.value == t.(confirmedByUser := confirmed,
                            status := if confirmed == Some(true) then Confirmed else InReview)
    ensures r.Ok? && WellFormed(t) ==> WellFormed(r.value)
  {
    if t.status != PendingConfirmation then Err(NotConfirmable)
    else Ok(t.(confirmedByUser := confirmed, status := if confirmed == Some(true) then Confirmed else InReview))
  }

  /** The statuses the owner cannot cancel from. */
  predicate Uncancellable(s: OrderStatus)
  {
    s == PendingConfirmation || Final(s)
  }

  /** cancelOrder on one order: refused from pending_confirmation, confirmed,
      rejected and cancelled. */
  function CancelStep(t: MskOrder, cancelReason: string): (r: Result<MskOrder>)
    ensures r.Err? <==> Uncancellable(t.status)
    ensures r.Err? ==> r.error == NotCancellable
    ensures r.Ok? ==>
              r.value == t.(status := Cancelled,
                            cancelReason := if cancelReason != "" then Trim(cancelReason) else t.cancelReason)
    ensures r.Ok? && WellFormed(t) ==> WellFormed(r.value)
  {
    if Uncancellable(t.status) then Err(NotCancellable)
    else Ok(t.(status := Cancelled, cancelReason := if cancelReason != "" then Trim(cancelReason) else t.cancelReason))
  }

  /** The owner can cancel exactly from pending and in_review. */
  lemma CancelIff(t: MskOrder, cancelReason: string)
    ensures CancelStep(t, cancelReason).Ok? <==> t.status == Pending || t.status == InReview
  {
  }

  /** The requests that change an order. */
  datatype Op =
    | UserEdit(description: Option<string>, contactFirstName: Option<string>,
               contactLastName: Option<string>, contactPhone: Option<string>)
    | AdminUpdate(actor: Id, status: string, rejectionReason: string)
    | UserConfirm(confirmed: Option<bool>)
    | UserCancel(cancelReason: string)

  function Apply(t: MskOrder, op: Op): Result<MskOrder>
  {
    match op
    case UserEdit(d, f, l, p) => EditStep(t, d, f, l, p)
    case AdminUpdate(actor, status, reason) => AdminStep(t, actor, status, reason)
    case UserConfirm(confirmed) => ConfirmStep(t, confirmed)
    case UserCancel(reason) => CancelStep(t, reason)
  }

  /** A sequence of requests on one order; a refused request changes nothing. */
  function Run(t: MskOrder, ops: seq<Op>): MskOrder
    decreases |ops|
  {
    if ops == [] then t
    else
      var r := Apply(t, ops[0]);
      Run(if r.Ok? then r.value else t, ops[1..])
  }

  /** Confirmed, rejected and cancelled have no exits. */
  lemma FinalRefusesAll(t: MskOrder, op: Op)
    requires Final(t.status)
    ensures Apply(t, op).Err?
  {
    if op.AdminUpdate? {
      TableNamesStatuses(t.status, op.status);
    }
  }

  lemma {:induction false} RunFromFinal(t: MskOrder, ops: seq<Op>)
    requires Final(t.status)
    ensures Run(t, ops) == t
    decreases |ops|
  {
    if ops != [] {
      FinalRefusesAll(t, ops[0]);
      RunFromFinal(t, ops[1..]);
    }
  }

  lemma {:induction false} RunKeepsWellFormed(t: MskOrder, ops: seq<Op>)
    requires WellFormed(t)
    ensures WellFormed(Run(t, ops))
    decreases |ops|
  {
    if ops != [] {
      var r := Apply(t, ops[0]);
      RunKeepsWellFormed(if r.Ok? then r.value else t, ops[1..]);
    }
  }

  /** Only the user's true confirmation, from pending_confirmation, makes an order confirmed. */
  lemma ConfirmedOnlyByUser(t: MskOrder, op: Op)
    requires t.status != Confirmed
    requires Apply(t, op).Ok? && Apply(t, op).value.status == Confirmed
    ensures op == UserConfirm(Some(true)) && t.status == PendingConfirmation
  {
    if op.AdminUpdate? {
      AdminNeverConfirms(t, op.actor, op.status, op.rejectionReason);
    }
  }

  lemma {:induction false} RunConfirmedNeedsUser(t: MskOrder, ops: seq<Op>)
    requires t.status != Confirmed && Run(t, ops).status == Confirmed
    ensures exists i :: 0 <= i < |ops| && ops[i] == UserConfirm(Some(true))
    decreases |ops|
  {
    var r := Apply(t, ops[0]);
    var next := if r.Ok? then r.value else t;
    if next.status == Confirmed {
      ConfirmedOnlyByUser(t, ops[0]);
      assert ops[0] == UserConfirm(Some(true));
    } else {
      RunConfirmedNeedsUser(next, ops[1..]);
      var i :| 0 <= i < |ops[1..]| && ops[1..][i] == UserConfirm(Some(true));
      assert ops[i + 1] == UserConfirm(Some(true));
    }
  }

  /** A user who declines sends the order back to in_review; the admin keeps it
      and can offer it for confirmation again. */
  lemma DeclineThenReoffer(t: MskOrder, admin: Id)
    requires t.status == PendingConfirmation
    ensures var declined := ConfirmStep(t, Some(false));
            && declined.Ok? && declined.value.status == InReview
            && declined.value.assignedAdmin == t.assignedAdmin
            && AdminStep(declined.value, admin, "pending_confirmation", "").Ok?
  {
    var declined := ConfirmStep(t, Some(false)).value;
    TableNamesStatuses(declined.status, "pending_confirmation");
  }

  /** getAllOrders: the listing filter, built by successive assignment. */
  method ListFilter(user: Principal, categoryId: string, regionId: string, status: string,
                    allowedMskCategories: Option<seq<Id>>) returns (f: Filter)
    ensures forall v :: Matches(f, v) <==>
              && (status != "" ==> v.status == status)
              && ListingSubtypeScope(v.subtype, categoryId, allowedMskCategories)
              && ListingRegionScope(v.refs, regionId, AdminRegion(user))
  {
    f := Unfiltered;
    if categoryId != "" { f := f.(subtype := IdEq(categoryId)); }
    if status != "" { f := f.(status := Some(status)); }
    if user.role == Admin && user.assignedRegion.Some? {
      f := f.(region := AnyOf4(user.assignedRegion.value.region));
    }
    if regionId != "" { f := f.(region := AnyOf4(regionId)); }
    if allowedMskCategories.Some? && |allowedMskCategories.value| > 0 {
      f := f.(subtype := IdIn(allowedMskCategories.value));
    }
  }

  /** Every document in `docs` is well formed. */
  ghost predicate AllWellFormed(docs: map<Id, MskOrder>)
  {
    forall id | id in docs :: WellFormed(docs[id])
  }

  lemma SaveKeepsWellFormed(docs: map<Id, MskOrder>, id: Id, o: MskOrder)
    requires AllWellFormed(docs) && WellFormed(o)
    ensures AllWellFormed(docs[id := o])
  {
  }

  /** The MskOrder collection. */
  /** `findOne({ _id: id, user: caller })`: the document exists and belongs to the caller. */
  predicate Owns(docs: map<Id, MskOrder>, id: Id, caller: Id)
  {
    id in docs && docs[id].user == caller
  }

  class OrderCollection {
    var docs: map<Id, MskOrder>

    ghost predicate Valid()
      reads this
    {
      AllWellFormed(docs)
    }

    constructor ()
      ensures docs == map[] && Valid()
    {
      docs := map[];
    }

    /** POST /api/msk/orders. `newId` is the id the database assigns. */
    method CreateOrder(newId: Id, user: Principal, categoryId: string, description: string,
                       contactFirstName: string, contactLastName: string, contactPhone: string)
      returns (r: Result<MskOrder>)
      requires Valid() && newId !in docs
      modifies this
      ensures Valid()
      ensures r == CreateStep(user, categoryId, description, contactFirstName, contactLastName, contactPhone)
      ensures docs == if r.Ok? then old(docs)[newId := r.value] else old(docs)
    {
      if categoryId == "" || description == "" || contactFirstName == "" || contactLastName == "" || contactPhone == "" {
        return Err(MissingFields);
      }
      if user.address.None? {
        return Err(NoAddress);
      }
      var order := NewOrder(user.id, categoryId, Trim(description), Trim(contactFirstName), Trim(contactLastName),
                            Trim(contactPhone), TicketAddress(user.address.value));
      if !Saveable(order) {
        return Err(ServerError);
      }
      SaveKeepsWellFormed(docs, newId, order);
      docs := docs[newId := order];
      return Ok(order);
    }

    /** PUT /api/msk/orders/:id (the owner's edit). */
    method UpdateOrder(id: Id, caller: Principal, description: Option<string>, contactFirstName: Option<string>,
                       contactLastName: Option<string>, contactPhone: Option<string>) returns (r: Result<MskOrder>)
      requires Valid()
      modifies this
      ensures Valid()
      ensures r == if Owns(old(docs), id, caller.id)
                   then EditStep(old(docs)[id], description, contactFirstName, contactLastName, contactPhone)
                   else Err(NotFound)
      ensures docs == if r.Ok? then old(docs)[id := r.value] else old(docs)
    {
      if !Owns(docs, id, caller.id) {
        return Err(NotFound);
      }
      var order := docs[id];
      ghost var stored := order;
      if order.status != Pending {
        return Err(NotEditable);
      }
      if description.Some? { order := order.(description := Trim(description.value)); }
      assert order.description == AssignTrimmed(stored.description, description);
      if contactFirstName.Some? { order := order.(contactFirstName := Trim(contactFirstName.value)); }
      assert order.contactFirstName == AssignTrimmed(stored.contactFirstName, contactFirstName);
      if contactLastName.Some? { order := order.(contactLastName := Trim(contactLastName.value)); }
      assert order.contactLastName == AssignTrimmed(stored.contactLastName, contactLastName);
      if contactPhone.Some? { order := order.(contactPhone := Trim(contactPhone.value)); }
      assert order.contactPhone == AssignTrimmed(stored.contactPhone, contactPhone);
      EditPending(stored, description, contactFirstName, contactLastName, contactPhone, order);
      if !Saveable(order) {
        return Err(ServerError);
      }
      SaveKeepsWellFormed(docs, id, order);
      docs := docs[id := order];
      return Ok(order);
    }

    /** PUT /api/msk/orders/:id/status (admin). */
    method UpdateOrderStatus(id: Id, actor: Principal, status: string, rejectionReason: string)
      returns (r: Result<MskOrder>)
      requires Valid()
      modifies this
      ensures Valid()
      ensures r == if id in old(docs) then AdminStep(old(docs)[id], actor.id, status, rejectionReason)
                   else Err(NotFound)
      ensures docs == if r.Ok? then old(docs)[id := r.value] else old(docs)
    {
      if id !in docs {
        return Err(NotFound);
      }
      var order := docs[id];
      var allowed := AllowedTargets(order.status);
      TableNamesStatuses(order.status, status);
      if status !in allowed {
        return Err(InvalidTransition(StatusName(order.status), status));
      }
      ghost var target := ParseStatus(status).value;
      assert StatusName(target) == status;
      if status == "rejected" && rejectionReason == "" {
        return Err(MissingReason);
      }
      order := order.(status := ParseStatus(status).value);
      if status == "in_review" { order := order.(assignedAdmin := Some(actor.id)); }
      if rejectionReason != "" { order := order.(rejectionReason := rejectionReason); }
      SaveKeepsWellFormed(docs, id, order);
      docs := docs[id := order];
      return Ok(order);
    }

    /** PUT /api/msk/orders/:id/confirm (the owner). */
    method ConfirmOrder(id: Id, caller: Principal, confirmed: Option<bool>) returns (r: Result<MskOrder>)
      requires Valid()
      modifies this
      ensures Valid()
      ensures r == if Owns(old(docs), id, caller.id) then ConfirmStep(old(docs)[id], confirmed) else Err(NotFound)
      ensures docs == if r.Ok? then old(docs)[id := r.value] else old(docs)
    {
      if !Owns(docs, id, caller.id) {
        return Err(NotFound);
      }
      var order := docs[id];
      if order.status != PendingConfirmation {
        return Err(NotConfirmable);
      }
      order := order.(confirmedByUser := confirmed);
      order := order.(status := if confirmed == Some(true) then Confirmed else InReview);
      SaveKeepsWellFormed(docs, id, order);
      docs := docs[id := order];
      return Ok(order);
    }

    /** PUT /api/msk/orders/:id/cancel (the owner). */
    method CancelOrder(id: Id, caller: Principal, cancelReason: string) returns (r: Result<MskOrder>)
      requires Valid()
      modifies this
      ensures Valid()
      ensures r == if Owns(old(docs), id, caller.id) then CancelStep(old(docs)[id], cancelReason) else Err(NotFound)
      ensures docs == if r.Ok? then old(docs)[id := r.value] else old(docs)
    {
      if !Owns(docs, id, caller.id) {
        return Err(NotFound);
      }
      var order := docs[id];
      if Uncancellable(order.status) {
        return Err(NotCancellable);
      }
      order := order.(status := Cancelled);
      if cancelReason != "" {
        order := order.(cancelReason := Trim(cancelReason));
      }
      SaveKeepsWellFormed(docs, id, order);
      docs := docs[id := order];
      return Ok(order);
    }
  }
}
