/** The Request schema: its status and category enums, its defaults, and the
    validation Mongoose runs when a Request is saved. */
module RequestModel {
  import opened Common
  import opened Addresses

  datatype RequestStatus = Pending | InReview | Resolved | Rejected | Cancelled

  function StatusName(s: RequestStatus): string
  {
    match s
    case Pending => "pending"
    case InReview => "in_review"
    case Resolved => "resolved"
    case Rejected => "rejected"
    case Cancelled => "cancelled"
  }

  /** The enum validator: a string is a status exactly when it is one of the five names. */
  function ParseStatus(s: string): (r: Option<RequestStatus>)
    ensures r.Some? ==> StatusName(r.value) == s
  {
    if s == "pending" then Some(Pending)
    else if s == "in_review" then Some(InReview)
    else if s == "resolved" then Some(Resolved)
    else if s == "rejected" then Some(Rejected)
    else if s == "cancelled" then Some(Cancelled)
    else None
  }

  /** Every status name parses back to its status. */
  lemma ParseStatusName(s: RequestStatus)
    ensures ParseStatus(StatusName(s)) == Some(s)
  {
  }

  datatype Category = Infrastructure | Social | Finance

  function CategoryName(c: Category): string
  {
    match c
    case Infrastructure => "infrastructure"
    case Social => "social"
    case Finance => "finance"
  }

  function ParseCategory(s: string): (r: Option<Category>)
    ensures r.Some? ==> CategoryName(r.value) == s
  {
    if s == "infrastructure" then Some(Infrastructure)
    else if s == "social" then Some(Social)
    else if s == "finance" then Some(Finance)
    else None
  }

  lemma ParseCategoryName(c: Category)
    ensures ParseCategory(CategoryName(c)) == Some(c)
  {
  }

  /** A Request document. `requestType` is the schema's `type` field. */
  datatype Request = Request(
    user: Id,
    category: Category,
    description: string,
    contactFirstName: string,
    contactLastName: string,
    contactPhone: string,
    status: RequestStatus,
    rejectionReason: string,
    closingNote: string,
    cancelReason: string,
    requestType: Option<Id>,
    assignedAdmin: Option<Id>,
    address: Address)

  /** What a save accepts: the four required trimmed strings are non-empty
      (the enums hold by their types). */
  predicate WellFormed(r: Request)
  {
    && RequiredTrimmed(r.description)
    && RequiredTrimmed(r.contactFirstName)
    && RequiredTrimmed(r.contactLastName)
    && RequiredTrimmed(r.contactPhone)
  }

  /** A new document with the schema defaults: status "pending", empty reasons
      and note, no type and no assigned admin. */
  function NewRequest(user: Id, category: Category, description: string, contactFirstName: string,
                      contactLastName: string, contactPhone: string, address: Address): Request
  {
    Request(user, category, description, contactFirstName, contactLastName, contactPhone,
            Pending, "", "", "", None, None, address)
  }
}
