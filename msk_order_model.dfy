/** The MskOrder schema: a user's order for a housing-maintenance service of
    one MSK category, its status enum and its defaults. */
module MskOrderModel {
  import opened Common
  import opened Addresses

  datatype OrderStatus = Pending | InReview | PendingConfirmation | Confirmed | Rejected | Cancelled

  function StatusName(s: OrderStatus): string
  {
    match s
    case Pending => "pending"
    case InReview => "in_review"
    case PendingConfirmation => "pending_confirmation"
    case Confirmed => "confirmed"
    case Rejected => "rejected"
    case Cancelled => "cancelled"
  }

  /** The enum validator. */
  function ParseStatus(s: string): (r: Option<OrderStatus>)
    ensures r.Some? ==> StatusName(r.value) == s
  {
    if s == "pending" then Some(Pending)
    else if s == "in_review" then Some(InReview)
    else if s == "pending_confirmation" then Some(PendingConfirmation)
    else if s == "confirmed" then Some(Confirmed)
    else if s == "rejected" then Some(Rejected)
    else if s == "cancelled" then Some(Cancelled)
    else None
  }

  lemma ParseStatusName(s: OrderStatus)
    ensures ParseStatus(StatusName(s)) == Some(s)
  {
  }

  /** The statuses no operation leaves. */
  predicate Final(s: OrderStatus)
  {
    s == Confirmed || s == Rejected || s == Cancelled
  }

  /** An MskOrder document. */
  datatype MskOrder = MskOrder(
    user: Id,
    category: Id,
    description: string,
    contactFirstName: string,
    contactLastName: string,
    contactPhone: string,
    address: Address,
    status: OrderStatus,
    rejectionReason: string,
    cancelReason: string,
    assignedAdmin: Option<Id>,
    confirmedByUser: Option<bool>)

  /** A new order with the schema defaults: status "pending", empty reasons,
      no assigned admin and no confirmation flag. */
  function NewOrder(user: Id, category: Id, description: string, contactFirstName: string,
                    contactLastName: string, contactPhone: string, address: Address): MskOrder
  {
    MskOrder(user, category, description, contactFirstName, contactLastName, contactPhone, address,
             Pending, "", "", None, None)
  }

  /** What a save accepts: the category reference is set and the four
      required trimmed strings are non-empty (the enum holds by its type). */
  predicate Saveable(o: MskOrder)
  {
    && o.category != ""
    && RequiredTrimmed(o.description)
    && RequiredTrimmed(o.contactFirstName)
    && RequiredTrimmed(o.contactLastName)
    && RequiredTrimmed(o.contactPhone)
  }

  /** What the handlers keep true of every stored order: it was saveable, and
      a confirmed order carries the user's true flag. */
  predicate WellFormed(o: MskOrder)
  {
    Saveable(o) && (o.status == Confirmed ==> o.confirmedByUser == Some(true))
  }
}
