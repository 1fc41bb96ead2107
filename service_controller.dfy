/** The ServiceReport handlers: create, the admin's status update through an
    explicit transition table, the user's confirm and cancel, the listing
    filter, and the statistics match and per-service counts. */
module ServiceController {
  import opened Common
  import opened Addresses
  import opened Principals
  import opened Scope
  import opened Tallies
  import opened ServiceReportModel

  /** What a filter sees of a report: its service is the sub-type. */
  function View(r: ServiceReport): TicketView
  {
    TicketView(StatusName(r.status), None, Some(r.service), r.address.Refs())
  }

  /** createReport: the report saved, or why it is refused. An empty
      serviceId fails the required `service` reference. */
  function CreateStep(user: Principal, serviceId: string): (r: Result<ServiceReport>)
    ensures r == Err(NoAddress) <==> user.address.None?
    ensures r == Err(ServerError) <==> user.address.Some? && serviceId == ""
    ensures r.Ok? ==>
              && WellFormed(r.value)
              && r.value.service == serviceId && r.value.user == user.id
              && r.value.status == Unavailable
              && r.value.address.Refs() == user.address.value.Refs()
              && r.value.address.neighborhoodCustom == user.address.value.neighborhoodCustom
              && r.value.address.streetCustom == user.address.value.streetCustom
              && r.value.resolvedByAdmin == None && r.value.confirmedByUser == None
              && r.value.rejectionReason == "" && r.value.cancelReason == "" && r.value.adminNote == ""
  {
    if user.address.None? then Err(NoAddress)
    else if serviceId == "" then Err(ServerError)
    else Ok(NewReport(serviceId, user.id, ReportAddressOf(user.address.value)))
  }

  /** `allowedTransitions[currentStatus]`, with [] for a status that has no entry. */
  function AllowedTargets(from: ReportStatus): seq<string>
  {
    match from
    case Unavailable => ["in_progress", "pending_confirmation", "rejected"]
    case InProgress => ["pending_confirmation", "rejected"]
    case _ => []
  }

  /** The table on statuses. */
  function AllowedNext(from: ReportStatus): set<ReportStatus>
  {
    match from
    case Unavailable => {InProgress, PendingConfirmation, Rejected}
    case InProgress => {PendingConfirmation, Rejected}
    case _ => {}
  }

  /** Every entry of the table is a status name, so the string table and the
      status table agree. */
  lemma TableNamesStatuses(from: ReportStatus, status: string)
    ensures status in AllowedTargets(from) <==>
              ParseStatus(status).Some? && ParseStatus(status).value in AllowedNext(from)
  {
    if ParseStatus(status).Some? && ParseStatus(status).value in AllowedNext(from) {
      assert StatusName(ParseStatus(status).value) == status;
    }
  }

  /** updateReportStatus on one report: the table check first, then the
      reason check; the reason and the note are stored trimmed. */
  function AdminStep(t: ServiceReport, actor: Id, status: string, rejectionReason: string,
                     adminNote: string): (r: Result<ServiceReport>)
    ensures r.Err? ==> r.error in {InvalidTransition(StatusName(t.status), status), MissingReason}
    ensures r.Ok? ==> ParseStatus(status).Some?
    ensures r.Ok? ==>
              r.value == t.(status := ParseStatus(status).value,
                            resolvedByAdmin := Some(actor),
                            rejectionReason := if status == "rejected" then Trim(rejectionReason) else t.rejectionReason,
                            adminNote := if adminNote != "" then Trim(adminNote) else t.adminNote)
    ensures r.Ok? ==> r.value.status in AllowedNext(t.status)
    ensures r.Ok? && WellFormed(t) ==> WellFormed(r.value)
  {
    match ParseStatus(status)
    case None => Err(InvalidTransition(StatusName(t.status), status))
    case Some(target) =>
      if target !in AllowedNext(t.status) then Err(InvalidTransition(StatusName(t.status), status))
      else if status == "rejected" && Trim(rejectionReason) == "" then Err(MissingReason)
      else
        Ok(t.(status := target,
              resolvedByAdmin := Some(actor),
              rejectionReason := if status == "rejected" then Trim(rejectionReason) else t.rejectionReason,
              adminNote := if adminNote != "" then Trim(adminNote) else t.adminNote))
  }

  /** The two refusals: the table is checked first, and its refusal names
      both states; only then does "rejected" need a reason that is not blank. */
  lemma AdminStepRefusals(t: ServiceReport, actor: Id, status: string, rejectionReason: string, adminNote: string)
    ensures var r := AdminStep(t, actor, status, rejectionReason, adminNote);
            r == Err(InvalidTransition(StatusName(t.status), status)) <==> status !in AllowedTargets(t.status)
    ensures var r := AdminStep(t, actor, status, rejectionReason, adminNote);
            r == Err(MissingReason) <==>
              status in AllowedTargets(t.status) && status == "rejected" && Trim(rejectionReason) == ""
  {
    TableNamesStatuses(t.status, status);
  }

  /** A transition the table allows, with a reason when rejecting, is
      applied to the stored report. */
  lemma AdminAccepted(t: ServiceReport, actor: Id, status: string, rejectionReason: string, adminNote: string)
    requires status in AllowedTargets(t.status)
    requires status == "rejected" ==> Trim(rejectionReason) != ""
    ensures ParseStatus(status).Some?
    ensures AdminStep(t, actor, status, rejectionReason, adminNote) ==
              Ok(t.(status := ParseStatus(status).value,
                    resolvedByAdmin := Some(actor),
                    rejectionReason := if status == "rejected" then Trim(rejectionReason) else t.rejectionReason,
                    adminNote := if adminNote != "" then Trim(adminNote) else t.adminNote))
  {
    TableNamesStatuses(t.status, status);
  }

  /** The admin table, stated on statuses: exactly unavailable to in_progress,
      pending_confirmation or rejected, and in_progress to pending_confirmation
      or rejected; an admin never confirms, cancels or reopens a report. */
  lemma AdminTable(t: ServiceReport, actor: Id, to: ReportStatus, rejectionReason: string, adminNote: string)
    requires Trim(rejectionReason) != ""
    ensures AdminStep(t, actor, StatusName(to), rejectionReason, adminNote).Ok? <==>
              || (t.status == Unavailable && (to == InProgress || to == PendingConfirmation || to == Rejected))
              || (t.status == InProgress && (to == PendingConfirmation || to == Rejected))
  {
    var status := StatusName(to);
    ParseStatusName(to);
    TableNamesStatuses(t.status, status);
    AdminStepRefusals(t, actor, status, rejectionReason, adminNote);
    assert status in AllowedTargets(t.status) <==> to in AllowedNext(t.status);
  }

  lemma AdminNeverConfirms(t: ServiceReport, actor: Id, status: string, rejectionReason: string, adminNote: string)
    ensures var r := AdminStep(t, actor, status, rejectionReason, adminNote);
            r.Ok? ==> !Final(t.status) && r.value.status != Confirmed && r.value.status != Cancelled
                      && r.value.status != Unavailable
  {
    var r := AdminStep(t, actor, status, rejectionReason, adminNote);
    if r.Ok? {
      assert r.value.status in AllowedNext(t.status);
    }
  }

  /** confirmReport on one report: only from pending_confirmation; a true
      flag confirms, anything else sends the report back to unavailable. */
  function ConfirmStep(t: ServiceReport, confirmed: Option<bool>): (r: Result<ServiceReport>)
    ensures r.Err? <==> t.status != PendingConfirmation
    ensures r.Err? ==> r.error == NotConfirmable
    ensures r.Ok? ==>
              r.value == t.(confirmedByUser := confirmed,
                            status := if confirmed == Some(true) then Confirmed else Unavailable)
    ensures r.Ok? && WellFormed(t) ==> WellFormed(r.value)
  {
    if t.status != PendingConfirmation then Err(NotConfirmable)
    else Ok(t.(confirmedByUser := confirmed, status := if confirmed == Some(true) then Confirmed else Unavailable))
  }

  /** cancelReport on one report: refused only from confirmed, rejected and
      cancelled, so pending_confirmation can still be cancelled. */
  function CancelStep(t: ServiceReport, cancelReason: string): (r: Result<ServiceReport>)
    ensures r.Err? <==> Final(t.status)
    ensures r.Err? ==> r.error == NotCancellable
    ensures r.Ok? ==>
              r.value == t.(status := Cancelled,
                            cancelReason := if cancelReason != "" then Trim(cancelReason) else t.cancelReason)
    ensures r.Ok? && WellFormed(t) ==> WellFormed(r.value)
  {
    if Final(t.status) then Err(NotCancellable)
    else Ok(t.(status := Cancelled, cancelReason := if cancelReason != "" then Trim(cancelReason) else t.cancelReason))
  }

  /** The requests that change a report. */
  datatype Op =
    | AdminUpdate(actor: Id, status: string, rejectionReason: string, adminNote: string)
    | UserConfirm(confirmed: Option<bool>)
    | UserCancel(cancelReason: string)

  function Apply(t: ServiceReport, op: Op): Result<ServiceReport>
  {
    match op
    case AdminUpdate(actor, status, reason, note) => AdminStep(t, actor, status, reason, note)
    case UserConfirm(confirmed) => ConfirmStep(t, confirmed)
    case UserCancel(reason) => CancelStep(t, reason)
  }

  /** A sequence of requests on one report; a refused request changes nothing. */
  function Run(t: ServiceReport, ops: seq<Op>): ServiceReport
    decreases |ops|
  {
    if ops == [] then t
    else
      var r := Apply(t, ops[0]);
      Run(if r.Ok? then r.value else t, ops[1..])
  }

  /** Confirmed, rejected and cancelled have no exits. */
  lemma FinalRefusesAll(t: ServiceReport, op: Op)
    requires Final(t.status)
    ensures Apply(t, op).Err?
  {
  }

  lemma {:induction false} RunFromFinal(t: ServiceReport, ops: seq<Op>)
    requires Final(t.status)
    ensures Run(t, ops) == t
  {
    if ops != [] {
      FinalRefusesAll(t, ops[0]);
      RunFromFinal(t, ops[1..]);
    }
  }

  lemma {:induction false} RunKeepsWellFormed(t: ServiceReport, ops: seq<Op>)
    requires WellFormed(t)
    ensures WellFormed(Run(t, ops))
    decreases |ops|
  {
    if ops != [] {
      var r := Apply(t, ops[0]);
      RunKeepsWellFormed(if r.Ok? then r.value else t, ops[1..]);
    }
  }

  /** Only the user's true confirmation, from pending_confirmation, makes a report confirmed. */
  lemma ConfirmedOnlyByUser(t: ServiceReport, op: Op)
    requires t.status != Confirmed
    requires Apply(t, op).Ok? && Apply(t, op).value.status == Confirmed
    ensures op == UserConfirm(Some(true)) && t.status == PendingConfirmation
  {
  }

  lemma {:induction false} RunConfirmedNeedsUser(t: ServiceReport, ops: seq<Op>)
    requires t.status != Confirmed && Run(t, ops).status == Confirmed
    ensures exists i :: 0 <= i < |ops| && ops[i] == UserConfirm(Some(true))
    decreases |ops|
  {
    var r := Apply(t, ops[0]);
    var next := if r.Ok? then r.value else t;
    if next.status == Confirmed {
      ConfirmedOnlyByUser(t, ops[0]);
      assert ops[0] == UserConfirm(Some(true));
    } else {
      RunConfirmedNeedsUser(next, ops[1..]);
      var i :| 0 <= i < |ops[1..]| && ops[1..][i] == UserConfirm(Some(true));
      assert ops[i + 1] == UserConfirm(Some(true));
    }
  }

  /** unavailable to confirmed by an admin is refused, naming both states. */
  lemma AdminCannotSkipToConfirmed(t: ServiceReport, actor: Id)
    requires t.status == Unavailable
    ensures AdminStep(t, actor, "confirmed", "", "") == Err(InvalidTransition("unavailable", "confirmed"))
  {
  }

  /** The full path: in_progress, pending_confirmation, then the user confirms. */
  lemma ResolvedAndConfirmed(user: Principal, serviceId: Id, admin: Id)
    requires user.address.Some? && serviceId != ""
    ensures var created := CreateStep(user, serviceId).value;
            var ops := [AdminUpdate(admin, "in_progress", "", ""),
                        AdminUpdate(admin, "pending_confirmation", "", ""),
                        UserConfirm(Some(true))];
            && Run(created, ops).status == Confirmed
            && Run(created, ops).resolvedByAdmin == Some(admin)
            && Run(created, ops).confirmedByUser == Some(true)
  {
    var created := CreateStep(user, serviceId).value;
    var a := AdminStep(created, admin, "in_progress", "", "").value;
    var b := AdminStep(a, admin, "pending_confirmation", "", "").value;
    var ops := [AdminUpdate(admin, "in_progress", "", ""),
                AdminUpdate(admin, "pending_confirmation", "", ""),
                UserConfirm(Some(true))];
    assert ops[1..][1..] == [UserConfirm(Some(true))];
    assert Run(created, ops) == Run(a, ops[1..]);
    assert Run(a, ops[1..]) == Run(b, ops[1..][1..]);
  }

  /** getAllReports: the listing filter, built by successive assignment. */
  method ListFilter(user: Principal, serviceId: string, regionId: string, status: string,
                    allowedServiceTypes: Option<seq<Id>>) returns (f: Filter)
    ensures forall v :: Matches(f, v) <==>
              && (status != "" ==> v.status == status)
              && ListingSubtypeScope(v.subtype, serviceId, allowedServiceTypes)
              && ListingRegionScope(v.refs, regionId, AdminRegion(user))
  {
    f := Unfiltered;
    if serviceId != "" { f := f.(subtype := IdEq(serviceId)); }
    if status != "" { f := f.(status := Some(status)); }
    if user.role == Admin && user.assignedRegion.Some? {
      f := f.(region := AnyOf4(user.assignedRegion.value.region));
    }
    if regionId != "" { f := f.(region := AnyOf4(regionId)); }
    if allowedServiceTypes.Some? && |allowedServiceTypes.value| > 0 {
      f := f.(subtype := IdIn(allowedServiceTypes.value));
    }
  }

  /** The region scope of getServiceStats: the most specific explicit field
      (neighborhood, then district, then region) by equality; without one, an
      admin's any-of-three clause, which leaves out the street. */
  predicate StatsRegionScope(refs: RegionRefs, regionId: string, districtId: string, neighborhoodId: string,
                             adminRegion: Option<Id>)
  {
    if neighborhoodId != "" then refs.neighborhood == Some(neighborhoodId)
    else if districtId != "" then refs.district == Some(districtId)
    else if regionId != "" then refs.region == Some(regionId)
    else adminRegion.Some? ==> InAnyOf3(refs, adminRegion.value)
  }

  /** The service scope of getServiceStats: an explicit serviceId replaces the allow-list. */
  predicate StatsServiceScope(service: Option<Id>, serviceId: string, allowed: Option<seq<Id>>)
  {
    if serviceId != "" then service == Some(serviceId)
    else allowed.Some? && allowed.value != [] ==> service.Some? && service.value in allowed.value
  }

  /** getServiceStats: the `$match` stage. */
  method StatsMatch(user: Principal, regionId: string, districtId: string, neighborhoodId: string, serviceId: string,
                    allowedServiceTypes: Option<seq<Id>>) returns (f: Filter)
    ensures forall v :: Matches(f, v) <==>
              && StatsRegionScope(v.refs, regionId, districtId, neighborhoodId, AdminRegion(user))
              && StatsServiceScope(v.subtype, serviceId, allowedServiceTypes)
  {
    f := Unfiltered;
    if neighborhoodId != "" {
      f := f.(region := FieldEq(NeighborhoodField, neighborhoodId));
    } else if districtId != "" {
      f := f.(region := FieldEq(DistrictField, districtId));
    } else if regionId != "" {
      f := f.(region := FieldEq(RegionField, regionId));
    }
    if user.role == Admin && user.assignedRegion.Some? {
      if f.region == AnyRegion {
        f := f.(region := AnyOf3(user.assignedRegion.value.region));
      }
    }
    if allowedServiceTypes.Some? && |allowedServiceTypes.value| > 0 {
      f := f.(subtype := IdIn(allowedServiceTypes.value));
    }
    if serviceId != "" { f := f.(subtype := IdEq(serviceId)); }
  }

  /** The two overwrites run in opposite directions: with a non-empty
      allow-list, a report of a service outside it is counted by the
      statistics when asked for by serviceId, but never listed. */
  lemma OppositeOverwrites(service: Id, allowed: seq<Id>)
    requires service != "" && allowed != [] && service !in allowed
    ensures StatsServiceScope(Some(service), service, Some(allowed))
    ensures !ListingSubtypeScope(Some(service), service, Some(allowed))
  {
  }

  /** An explicit district lets an admin's statistics count reports that lie
      wholly outside the admin's region. */
  lemma ExplicitFieldEscapesAdminScope(own: Id, district: Id, other: Id)
    requires district != "" && district != own && other != own
    ensures StatsRegionScope(RegionRefs(Some(other), Some(district), None, None), "", district, "", Some(own))
    ensures !InAnyOf3(RegionRefs(Some(other), Some(district), None, None), own)
  {
  }

  /** The counts getServiceStats reports for one service (the percentages aside). */
  datatype ServiceCounts = ServiceCounts(
    total: nat,
    unavailable: nat,
    inProgress: nat,
    pendingConfirmation: nat,
    confirmed: nat,
    rejected: nat,
    problemCount: nat)

  /** One element of `stats.map`: the status map is filled from the rows,
      each count is read with `|| 0`, and problemCount adds the three open ones. */
  method StatsRow(statuses: seq<Group>, total: nat) returns (c: ServiceCounts)
    ensures c.total == total
    ensures c.unavailable == CountOr0(statuses, "unavailable")
    ensures c.inProgress == CountOr0(statuses, "in_progress")
    ensures c.pendingConfirmation == CountOr0(statuses, "pending_confirmation")
    ensures c.confirmed == CountOr0(statuses, "confirmed")
    ensures c.rejected == CountOr0(statuses, "rejected")
    ensures c.problemCount == c.unavailable + c.inProgress + c.pendingConfirmation
  {
    var statusMap := StatusMap(statuses);
    var unavailable := if "unavailable" in statusMap then statusMap["unavailable"] else 0;
    var inProgress := if "in_progress" in statusMap then statusMap["in_progress"] else 0;
    var pendingConfirmation := if "pending_confirmation" in statusMap then statusMap["pending_confirmation"] else 0;
    var confirmed := if "confirmed" in statusMap then statusMap["confirmed"] else 0;
    var rejected := if "rejected" in statusMap then statusMap["rejected"] else 0;
    var problemCount := unavailable + inProgress + pendingConfirmation;
    c := ServiceCounts(total, unavailable, inProgress, pendingConfirmation, confirmed, rejected, problemCount);
  }

  /** The six status names. */
  const StatusNames: seq<string> :=
    ["unavailable", "in_progress", "pending_confirmation", "confirmed", "rejected", "cancelled"]

  /** When every row names a distinct report status, the six per-status counts
      add up to the service total, so problemCount never exceeds it. */
  lemma {:induction false} CountsPartitionTotal(statuses: seq<Group>)
    requires DistinctKeys(statuses)
    requires forall i | 0 <= i < |statuses| :: ParseStatus(statuses[i].0).Some?
    ensures CountOr0(statuses, "unavailable") + CountOr0(statuses, "in_progress")
            + CountOr0(statuses, "pending_confirmation") + CountOr0(statuses, "confirmed")
            + CountOr0(statuses, "rejected") + CountOr0(statuses, "cancelled") == Sum(statuses)
    ensures CountOr0(statuses, "unavailable") + CountOr0(statuses, "in_progress")
            + CountOr0(statuses, "pending_confirmation") <= Sum(statuses)
  {
    forall i | 0 <= i < |statuses| ensures statuses[i].0 in StatusNames {
      var s := ParseStatus(statuses[i].0).value;
      assert StatusName(s) == statuses[i].0;
    }
    SumByKeys(statuses, StatusNames);
    var k := StatusNames;
    assert k[1..] == ["in_progress", "pending_confirmation", "confirmed", "rejected", "cancelled"];
    assert k[1..][1..] == ["pending_confirmation", "confirmed", "rejected", "cancelled"];
    assert k[1..][1..][1..] == ["confirmed", "rejected", "cancelled"];
    assert k[1..][1..][1..][1..] == ["rejected", "cancelled"];
    assert k[1..][1..][1..][1..][1..] == ["cancelled"];
    assert k[1..][1..][1..][1..][1..][1..] == [];
    assert SumOver(statuses, k[1..][1..][1..][1..][1..][1..]) == 0;
    assert SumOver(statuses, k[1..][1..][1..][1..][1..]) == CountOr0(statuses, "cancelled");
    assert SumOver(statuses, k[1..][1..][1..][1..]) == CountOr0(statuses, "rejected") + CountOr0(statuses, "cancelled");
    assert SumOver(statuses, k[1..][1..][1..]) ==
           CountOr0(statuses, "confirmed") + CountOr0(statuses, "rejected") + CountOr0(statuses, "cancelled");
    assert SumOver(statuses, k[1..][1..]) == CountOr0(statuses, "pending_confirmation") + SumOver(statuses, k[1..][1..][1..]);
    assert SumOver(statuses, k[1..]) == CountOr0(statuses, "in_progress") + SumOver(statuses, k[1..][1..]);
    assert SumOver(statuses, k) == CountOr0(statuses, "unavailable") + SumOver(statuses, k[1..]);
  }

  /** The ServiceReport collection. */
  ghost predicate AllWellFormed(docs: map<Id, ServiceReport>)
  {
    forall id | id in docs :: WellFormed(docs[id])
  }

  lemma SaveKeepsWellFormed(docs: map<Id, ServiceReport>, id: Id, r: ServiceReport)
    requires AllWellFormed(docs) && WellFormed(r)
    ensures AllWellFormed(docs[id := r])
  {
  }

  /** `findOne({ _id: id, user: caller })`: the document exists and belongs to the caller. */
  predicate Owns(docs: map<Id, ServiceReport>, id: Id, caller: Id)
  {
    id in docs && docs[id].user == caller
  }

  class ReportCollection {
    var docs: map<Id, ServiceReport>

    ghost predicate Valid()
      reads this
    {
      AllWellFormed(docs)
    }

    constructor ()
      ensures docs == map[] && Valid()
    {
      docs := map[];
    }

    /** POST /api/service-reports. `newId` is the id the database assigns. */
    method CreateReport(newId: Id, user: Principal, serviceId: string) returns (r: Result<ServiceReport>)
      requires Valid() && newId !in docs
      modifies this
      ensures Valid()
      ensures r == CreateStep(user, serviceId)
      ensures docs == if r.Ok? then old(docs)[newId := r.value] else old(docs)
    {
      if user.address.None? {
        return Err(NoAddress);
      }
      var a := user.address.value;
      var report := NewReport(serviceId, user.id,
                              ReportAddress(Some(a.region), Some(a.district), a.neighborhood, a.street,
                                            a.neighborhoodCustom, a.streetCustom));
      if report.service == "" {
        return Err(ServerError);
      }
      SaveKeepsWellFormed(docs, newId, report);
      docs := docs[newId := report];
      return Ok(report);
    }

    /** PUT /api/service-reports/:id/status (admin). */
    method UpdateReportStatus(id: Id, actor: Principal, status: string, rejectionReason: string, adminNote: string)
      returns (r: Result<ServiceReport>)
      requires Valid()
      modifies this
      ensures Valid()
      ensures r == if id in old(docs) then AdminStep(old(docs)[id], actor.id, status, rejectionReason, adminNote)
                   else Err(NotFound)
      ensures docs == if r.Ok? then old(docs)[id := r.value] else old(docs)
    {
      if id !in docs {
        return Err(NotFound);
      }
      var report := docs[id];
      var currentStatus := report.status;
      var allowed := AllowedTargets(currentStatus);
      AdminStepRefusals(report, actor.id, status, rejectionReason, adminNote);
      if status !in allowed {
        return Err(InvalidTransition(StatusName(currentStatus), status));
      }
      if status == "rejected" {
        if Trim(rejectionReason) == "" {
          return Err(MissingReason);
        }
        report := report.(rejectionReason := Trim(rejectionReason));
      }
      if adminNote != "" {
        report := report.(adminNote := Trim(adminNote));
      }
      AdminAccepted(docs[id], actor.id, status, rejectionReason, adminNote);
      report := report.(status := ParseStatus(status).value, resolvedByAdmin := Some(actor.id));
      SaveKeepsWellFormed(docs, id, report);
      docs := docs[id := report];
      return Ok(report);
    }

    /** PUT /api/service-reports/:id/confirm (the owner). */
    method ConfirmReport(id: Id, caller: Principal, confirmed: Option<bool>) returns (r: Result<ServiceReport>)
      requires Valid()
      modifies this
      ensures Valid()
      ensures r == if Owns(old(docs), id, caller.id) then ConfirmStep(old(docs)[id], confirmed) else Err(NotFound)
      ensures docs == if r.Ok? then old(docs)[id := r.value] else old(docs)
    {
      if !Owns(docs, id, caller.id) {
        return Err(NotFound);
      }
      var report := docs[id];
      if report.status != PendingConfirmation {
        return Err(NotConfirmable);
      }
      report := report.(confirmedByUser := confirmed);
      report := report.(status := if confirmed == Some(true) then Confirmed else Unavailable);
      SaveKeepsWellFormed(docs, id, report);
      docs := docs[id := report];
      return Ok(report);
    }

    /** PUT /api/service-reports/:id/cancel (the owner). */
    method CancelReport(id: Id, caller: Principal, cancelReason: string) returns (r: Result<ServiceReport>)
      requires Valid()
      modifies this
      ensures Valid()
      ensures r == if Owns(old(docs), id, caller.id) then CancelStep(old(docs)[id], cancelReason) else Err(NotFound)
      ensures docs == if r.Ok? then old(docs)[id := r.value] else old(docs)
    {
      if !Owns(docs, id, caller.id) {
        return Err(NotFound);
      }
      var report := docs[id];
      if Final(report.status) {
        return Err(NotCancellable);
      }
      report := report.(status := Cancelled);
      if cancelReason != "" {
        report := report.(cancelReason := Trim(cancelReason));
      }
      SaveKeepsWellFormed(docs, id, report);
      docs := docs[id := report];
      return Ok(report);
    }
  }
}
