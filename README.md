# e-requests-server: access gates, ticket lifecycles, scopes and the region table

This project is a Dafny model of the decision logic of e-requests-server. That is an Express and Mongoose back end: citizens file three kinds of tickets and staff handle them.

- **Request**: a general appeal.
- **ServiceReport**: a report that a public service is unavailable.
- **MskOrder**: an order to the housing-services company.

The model covers:

- **The access gates.**
  - `authorize` is the role check.
  - `checkPermission` is the per-module read or manage decision. On a pass it also attaches the admin's allow-list.
  - `checkRegionAccess` is the region check.
  - The route tables give each route the chain of these gates it runs.
- **The ticket handlers.** They load one document, change named fields and save it. This covers create, the owner's edit, confirm and cancel, and the admin's status update.
  - Each handler is a method on a collection class holding `docs: map<Id, Ticket>`.
  - Each method is proved equal to a pure step function on one record, with the error cases. The lemmas about the lifecycle are stated on those step functions.
- **Schema validation.** A save that Mongoose would refuse is answered 500. This happens for a blank required trimmed field, a string outside an enum, or a clash on the region unique index.
- **The query filters.** They are a `Filter` datatype with a `Matches` predicate. The listing, statistics and dashboard handlers build them by successive assignment, keeping the source's overwrites.
- **The statistics tallies.** They are loops over `(status, count)` rows, proved against a left fold.
- **The region table.** It is a class over `map<Id, RegionNode>` and keeps the unique `(name, type, parent)` key.
- **setRegion.** It builds the user's address and may insert new neighborhood and street nodes.

Token checking is outside the model. The principal `protect` resolves is an input, and the session is `None` when `protect` answers 401. Ids are strings. A request value that JavaScript tests for truthiness is a `string`, with `""` meaning absent. A value tested with `!== undefined` is an `Option`.

The Request status update checks no transition table: any status, a terminal one included, can be written over any other. `RequestController.AdminUpdateUnrestricted` states this.

## Model

| member | source | states |
|---|---|---|
| Common.StatusCode | src/controllers/request.controller.js:9-29 | each error answer has its HTTP code: 401 only for a missing session, 403 only for the four gate refusals, 404 only for not found, 500 only for the catch-all |
| Common.TrimCharacterized | src/models/request.model.js:15-19 | trim never lengthens, leaves no white space at either end, and gives "" exactly when the string is all white space, the behaviour of the `trim: true` setter |
| Common.TrimIdempotent | src/models/request.model.js:15-19 | trimming twice gives the same as trimming once, so a stored trimmed field is unchanged by a second assignment |
| Common.TrimmedIffFixed | src/models/request.model.js:15-19 | a string is trimmed exactly when trim leaves it unchanged |
| Common.RequiredTrimmedAssigned | src/models/request.model.js:15-34 | assigning s to a required trimmed field passes validation exactly when s has a character that is not white space |
| Addresses.TicketAddress | src/controllers/request.controller.js:24 | a Request or MskOrder address keeps the user's four region references |
| Addresses.ReportAddressOf | src/controllers/service.controller.js:87-94 | the six fields copied into a report address keep the user's four region references |
| Principals.AdminRegion | src/controllers/request.controller.js:89-90 | the listing region is present exactly for an admin with an assigned region, and is that region's id |
| Permission.EffectiveAccess | src/middlewares/permission.middleware.js:22 | a missing or empty access value means "manage"; any other value is kept |
| Permission.Decide | src/middlewares/permission.middleware.js:9-34 | passes exactly for the owner, or for an admin with no entry for the module or whose access admits the level; denials are 403; a list is attached only for an admin with an entry, and it is that module's own list |
| Permission.OwnerAlwaysAllowed | src/middlewares/permission.middleware.js:9 | the owner passes for every module and level, with nothing attached |
| Permission.OtherRolesDenied | src/middlewares/permission.middleware.js:12-14 | a role other than owner or admin is answered 403 |
| Permission.NoEntryUnrestricted | src/middlewares/permission.middleware.js:16-20 | an admin without permissions, or without an entry for the module, passes with no list, so its listings are not restricted |
| Permission.AdminEntryDecision | src/middlewares/permission.middleware.js:19-43 | with an entry, level by level: "off" is 403 at read and at manage, "read" passes read and is 403 at manage, any other value (empty included) passes both; every pass attaches the module's list; the decision passes exactly where the reference table `Permits` allows the effective access |
| Permission.ManageImpliesRead | src/middlewares/permission.middleware.js:24-34 | whatever passes at manage passes at read with the same list attached |
| Permission.RequestContext.CheckPermission | src/middlewares/permission.middleware.js:9-45 | answers as `Decide`; on a pass with an entry, requests writes `allowedTypes`, services writes `allowedServiceTypes` from the entry's `allowedTypes`, msk writes `allowedMskCategories`, and the other two fields are unchanged |
| Auth.Authorize | src/middlewares/auth.middleware.js:34-41 | passes exactly when the role is in the list; otherwise 403 |
| Auth.RegionIdParam | src/middlewares/auth.middleware.js:55-56 | the regionId is the params value, else the body value, else the query value |
| Auth.CheckRegionAccess | src/middlewares/auth.middleware.js:48-70 | the owner passes; other non-admins get 403; an admin passes exactly when no regionId is given or its assigned region equals it |
| Auth.RegionAccessIgnoresLevel | src/middlewares/auth.middleware.js:48-70 | read and manage give the same outcome |
| Scope.UnfilteredMatchesAll | src/controllers/stats.controller.js:22-25 | the empty filter selects every ticket |
| Scope.AnyOf4IsSomeField | src/controllers/request.controller.js:91-96 | the four-field `$or` holds exactly when some address field equals the id |
| Scope.ExactFieldEquality | src/controllers/request.controller.js:91-96 | the region match is plain equality and not hierarchy-aware: a ticket whose district is R matches R, and one below R by street alone does not |
| Scope.AnyOf3IgnoresStreet | src/controllers/service.controller.js:310-314 | the three-field `$or` is the four-field one with the street ignored, so a ticket matched only by its street is left out |
| Scope.ExplicitRegionEscapesScope | src/controllers/request.controller.js:99-106 | an explicit regionId replaces the admin's clause, so an admin lists tickets outside its own region |
| Scope.AllowListOverridesParam | src/controllers/request.controller.js:109-111 | a non-empty allow-list replaces the explicit sub-type parameter |
| Scope.EmptyAllowListUnrestricted | src/controllers/request.controller.js:109 | an absent or empty allow-list restricts nothing |
| Tallies.Tally | src/controllers/request.controller.js:235-238 | the forEach loop ends in the left fold of the rows over the initial object |
| Tallies.TallyTotal | src/controllers/stats.controller.js:36-40 | `total` ends as its initial value plus the sum of all counts |
| Tallies.TallyKey | src/controllers/stats.controller.js:37-39 | every other key holds the count of the last row with its name, or its initial value when no row has it |
| Tallies.StatusMap | src/controllers/service.controller.js:367-370 | the status map holds exactly the named rows, each with the last count given for it |
| Tallies.SumByKeys | src/controllers/service.controller.js:372-377 | for rows with distinct names drawn from a list of distinct keys, the sum of the counts is the sum over the keys of `count or 0` |
| RequestModel.ParseStatusName | src/models/request.model.js:35-39 | the status enum: each of the five names parses back to its status |
| RequestModel.ParseCategoryName | src/models/request.model.js:10-14 | the category enum: each of the three names parses back to its category |
| RequestController.CreateStep | src/controllers/request.controller.js:8-25 | 400 exactly when one of the five fields is empty, then 400 without an address; on success the document is valid, belongs to the user, copies the user's address, stores the parsed category and the trimmed strings, and starts pending with empty reasons and note, no type and no assigned admin |
| RequestController.EditStep | src/controllers/request.controller.js:58-72 | 400 exactly when not pending; only the given fields change, trimmed, and the category only to a valid name; on a valid document the save succeeds exactly when every given field is non-blank and a given category is valid |
| RequestController.StatusStep | src/controllers/request.controller.js:143-153 | 400 exactly for "rejected" without a reason; 500 exactly for a name outside the enum; these are the only refusals; otherwise the status is applied and only status, the assigned admin (for in_review), a truthy reason and note, and a given type (null when falsy) change, and validity is kept |
| RequestController.AdminUpdateUnrestricted | src/controllers/request.controller.js:137-147 | any target status is written over any current status, terminal ones included, whatever closing note and type come with it |
| RequestController.WhitespaceReasonAccepted | src/controllers/request.controller.js:143-149 | a reason of white space alone is accepted and stored as given |
| RequestController.ReviewThenResolve | src/controllers/request.controller.js:147-148 | in_review records the acting admin, and resolving afterwards keeps that admin and needs no reason |
| RequestController.CancelStep | src/controllers/request.controller.js:180-185 | refused with 400 exactly from resolved, rejected and cancelled; otherwise cancelled, with a given reason stored trimmed |
| RequestController.CancelIff | src/controllers/request.controller.js:180 | the owner can cancel exactly from pending and in_review |
| RequestController.ListFilter | src/controllers/request.controller.js:82-111 | a request matches exactly when it has the given status and category, lies in the listing sub-type scope, and lies in the region scope where an explicit regionId replaces the admin's region |
| RequestController.StatsMatch | src/controllers/request.controller.js:197-220 | the stats match: the allow-list scope and the region scope, the explicit regionId taking precedence |
| RequestController.StatsResult | src/controllers/request.controller.js:227-238 | `total` is the sum of the grouped counts; pending, in_review, resolved and rejected are always present and default to 0; any other grouped status appears with its count |
| RequestController.SaveKeepsWellFormed | src/controllers/request.controller.js:72 | saving a valid document keeps every stored document valid |
| RequestController.RequestCollection.Create | src/controllers/request.controller.js:4-31 | answers as `CreateStep`; on success the new document is stored under its new id, otherwise the collection is unchanged |
| RequestController.RequestCollection.Update | src/controllers/request.controller.js:47-77 | 404 unless the caller owns the document; otherwise answers as `EditStep`, and only that document changes |
| RequestController.RequestCollection.UpdateStatus | src/controllers/request.controller.js:134-165 | 404 for an absent id; otherwise answers as `StatusStep`, and only that document changes |
| RequestController.RequestCollection.CancelRequest | src/controllers/request.controller.js:168-192 | 404 unless the caller owns the document; otherwise answers as `CancelStep`, and only that document changes |
| ServiceReportModel.ParseStatusName | src/models/service-report.model.js:23-34 | each of the six status names parses back to its status |
| ServiceController.CreateStep | src/controllers/service.controller.js:80-96 | 400 exactly without an address; 500 without a service id; on success the report is unavailable, belongs to the user, copies the six address fields and has the schema defaults |
| ServiceController.TableNamesStatuses | src/controllers/service.controller.js:187-193 | a string is in the table's list for a status exactly when it names a status in the table's set |
| ServiceController.AdminStep | src/controllers/service.controller.js:192-212 | the only refusals are the 400 that names both states and the missing reason; an accepted step lands in the table, sets the status and the acting admin, stores the rejection reason and a given note trimmed, changes nothing else and keeps the report well-formed |
| ServiceController.AdminStepRefusals | src/controllers/service.controller.js:187-203 | the 400 naming both states comes exactly for a status outside the current status's row; the missing-reason 400 comes exactly for an allowed "rejected" whose reason is blank after trim |
| ServiceController.AdminAccepted | src/controllers/service.controller.js:192-212 | an allowed status, with a non-blank reason when rejecting, is always applied |
| ServiceController.AdminTable | src/controllers/service.controller.js:187-190 | the admin reaches exactly unavailable to in_progress, pending_confirmation or rejected, and in_progress to pending_confirmation or rejected |
| ServiceController.AdminNeverConfirms | src/controllers/service.controller.js:187-193 | no admin step confirms, cancels, or leaves a final status |
| ServiceController.AdminCannotSkipToConfirmed | src/controllers/service.controller.js:193-196 | unavailable to confirmed is refused with a message naming both states |
| ServiceController.ConfirmStep | src/controllers/service.controller.js:240-247 | refused exactly outside pending_confirmation; a true flag confirms, any other sends the report back to unavailable; the flag is recorded |
| ServiceController.CancelStep | src/controllers/service.controller.js:273-278 | refused exactly from confirmed, rejected and cancelled, so allowed from pending_confirmation; sets cancelled with a trimmed reason |
| ServiceController.FinalRefusesAll | src/controllers/service.controller.js:187-193 | confirmed, rejected and cancelled refuse every request |
| ServiceController.RunFromFinal | src/controllers/service.controller.js:187-278 | no sequence of requests changes a report in a final status |
| ServiceController.RunKeepsWellFormed | src/controllers/service.controller.js:187-278 | every sequence of requests with a boolean or absent `confirmed` keeps a report valid: service set, confirmed only with the user's true flag, acted-on statuses naming the admin |
| ServiceController.ConfirmedOnlyByUser | src/controllers/service.controller.js:246-247 | with a boolean or absent `confirmed`, a report becomes confirmed only by the user's true confirmation from pending_confirmation |
| ServiceController.RunConfirmedNeedsUser | src/controllers/service.controller.js:240-247 | any history with boolean or absent `confirmed` values that ends confirmed contains the user's true confirmation |
| ServiceController.ResolvedAndConfirmed | src/controllers/service.controller.js:84-248 | create, in_progress, pending_confirmation, then confirmation ends confirmed with the acting admin recorded |
| ServiceController.ListFilter | src/controllers/service.controller.js:125-153 | a report matches exactly when it has the given status, lies in the listing service scope where a non-empty allow-list replaces serviceId, and lies in the region scope |
| ServiceController.StatsMatch | src/controllers/service.controller.js:294-325 | one explicit field, neighborhood over district over region; the admin's three-field clause only when no explicit field is set; serviceId replaces the allow-list |
| ServiceController.OppositeOverwrites | src/controllers/service.controller.js:319-325 | in statistics an explicit serviceId wins over the allow-list, the opposite of the listing |
| ServiceController.ExplicitFieldEscapesAdminScope | src/controllers/service.controller.js:298-316 | an explicit district lets an admin count reports outside its own region |
| ServiceController.StatsRow | src/controllers/service.controller.js:367-383 | each count is the status's count or 0, and problemCount is unavailable plus in_progress plus pending_confirmation |
| ServiceController.CountsPartitionTotal | src/controllers/service.controller.js:372-377 | for grouped statuses, the six counts sum to the total of the rows, and problemCount never exceeds it |
| ServiceController.SaveKeepsWellFormed | src/controllers/service.controller.js:213 | saving a valid report keeps every stored report valid |
| ServiceController.ReportCollection.CreateReport | src/controllers/service.controller.js:75-106 | answers as `CreateStep`; on success only the new report is added |
| ServiceController.ReportCollection.UpdateReportStatus | src/controllers/service.controller.js:176-225 | 404 for an absent id; otherwise answers as `AdminStep`, and only that report changes |
| ServiceController.ReportCollection.ConfirmReport | src/controllers/service.controller.js:228-258 | 404 unless the caller owns the report; otherwise answers as `ConfirmStep` |
| ServiceController.ReportCollection.CancelReport | src/controllers/service.controller.js:261-289 | 404 unless the caller owns the report; otherwise answers as `CancelStep` |
| MskOrderModel.ParseStatusName | src/models/msk-order.model.js:45-49 | each of the six status names parses back to its status |
| MskController.CreateStep | src/controllers/msk.controller.js:79-95 | 400 exactly when one of the five fields is empty, then 400 without an address; on success the order is valid, stores the trimmed strings, copies the address, and starts pending with empty reasons, no assigned admin and no confirmation flag |
| MskController.EditStep | src/controllers/msk.controller.js:133-146 | 400 exactly when not pending; only the given contact and description fields change, trimmed; on a valid order the save succeeds exactly when every given field is non-blank |
| MskController.TableNamesStatuses | src/controllers/msk.controller.js:216-223 | a string is in the table's list for a status exactly when it names a status in the table's set |
| MskController.AdminStep | src/controllers/msk.controller.js:222-235 | the table is checked first, naming both states on refusal; "rejected" then needs a truthy reason, stored untrimmed; in_review records the admin |
| MskController.AdminTable | src/controllers/msk.controller.js:216-220 | the admin moves among pending, in_review and pending_confirmation, or to rejected, and from nowhere else |
| MskController.AdminNeverConfirms | src/controllers/msk.controller.js:216-223 | no admin step confirms or cancels an order |
| MskController.WhitespaceReasonAccepted | src/controllers/msk.controller.js:229-235 | a reason of white space alone is accepted and stored as given |
| MskController.ConfirmStep | src/controllers/msk.controller.js:263-268 | refused exactly outside pending_confirmation; true confirms, anything else returns to in_review; the flag is recorded and the assigned admin kept |
| MskController.CancelStep | src/controllers/msk.controller.js:290-295 | refused exactly from pending_confirmation, confirmed, rejected and cancelled; otherwise cancelled with a trimmed reason |
| MskController.CancelIff | src/controllers/msk.controller.js:290 | the owner can cancel exactly from pending and in_review |
| MskController.FinalRefusesAll | src/controllers/msk.controller.js:216-223 | confirmed, rejected and cancelled refuse every request |
| MskController.RunFromFinal | src/controllers/msk.controller.js:122-296 | no sequence of requests changes an order in a final status |
| MskController.RunKeepsWellFormed | src/controllers/msk.controller.js:122-296 | every sequence of requests with a boolean or absent `confirmed` keeps an order valid, and confirmed only with the user's true flag |
| MskController.ConfirmedOnlyByUser | src/controllers/msk.controller.js:267-268 | with a boolean or absent `confirmed`, an order becomes confirmed only by the user's true confirmation from pending_confirmation |
| MskController.RunConfirmedNeedsUser | src/controllers/msk.controller.js:263-268 | any history with boolean or absent `confirmed` values that ends confirmed contains the user's true confirmation |
| MskController.DeclineThenReoffer | src/controllers/msk.controller.js:219-268 | a declined order is back in in_review and the admin can offer it again |
| MskController.ListFilter | src/controllers/msk.controller.js:157-184 | an order matches exactly when it has the given status, lies in the category scope where a non-empty allow-list replaces categoryId, and lies in the region scope |
| MskController.SaveKeepsWellFormed | src/controllers/msk.controller.js:146 | saving a valid order keeps every stored order valid |
| MskController.OrderCollection.CreateOrder | src/controllers/msk.controller.js:74-105 | answers as `CreateStep`; on success only the new order is added |
| MskController.OrderCollection.UpdateOrder | src/controllers/msk.controller.js:122-151 | 404 unless the caller owns the order; otherwise answers as `EditStep` |
| MskController.OrderCollection.UpdateOrderStatus | src/controllers/msk.controller.js:207-248 | 404 for an absent id; otherwise answers as `AdminStep` |
| MskController.OrderCollection.ConfirmOrder | src/controllers/msk.controller.js:251-275 | 404 unless the caller owns the order; otherwise answers as `ConfirmStep` |
| MskController.OrderCollection.CancelOrder | src/controllers/msk.controller.js:278-302 | 404 unless the caller owns the order; otherwise answers as `CancelStep` |
| StatsController.DashboardMatch | src/controllers/stats.controller.js:11-25 | an admin with a region counts the tickets with that id in any of the four fields; anyone else counts every ticket; no allow-list is applied |
| StatsController.AddressFieldFor | src/controllers/stats.controller.js:75-80 | "district" and "neighborhood" choose their fields, and anything else chooses region |
| StatsController.StreetCountsByRegion | src/controllers/stats.controller.js:75-80 | "street", an absent type or an unknown one all count by the region field |
| StatsController.ByRegionMatch | src/controllers/stats.controller.js:60-82 | 400 exactly without regionId; 403 exactly for an admin whose region is not regionId; otherwise exact equality on the chosen field |
| StatsController.OwnerUnchecked | src/controllers/stats.controller.js:65-71 | the owner may ask for any region |
| StatsController.AdminOnlyOwnRegion | src/controllers/stats.controller.js:65-71 | an admin gets exactly its own assigned region |
| StatsController.FormatStats | src/controllers/stats.controller.js:35-42 | `total` is always present and, when no row is itself named total, is the sum of the counts; every other key is present exactly when some row has it, with the last row's count |
| RegionModel.ParseTypeName | src/models/region.model.js:10-14 | each of the four level names parses back to its level |
| RegionModel.AddKeepsValid | src/models/region.model.js:5-31 | adding a node with a required trimmed name and a free key keeps names valid and the `(name, type, parent)` key unique |
| RegionModel.ReplaceKeepsValid | src/models/region.model.js:5-31 | replacing a node by one whose key no other node has keeps the table valid |
| RegionModel.RemoveKeepsValid | src/models/region.model.js:31 | deleting a node keeps the table valid |
| RegionController.BuildQuery | src/controllers/region.controller.js:6-13 | type filters when given; parent filters when given; without parent, type "region" asks for top-level nodes; with neither, every node matches |
| RegionController.InsertStep | src/models/region.model.js:5-31 | a node is saved exactly when its trimmed name is non-empty and its key is free; then it is stored active with the trimmed name; otherwise 500 |
| RegionController.CreateStep | src/controllers/region.controller.js:41-54 | 400 exactly when name or type is missing; 400 exactly when a node with the trimmed name, type and parent-or-null exists; on success a new active node with that key |
| RegionController.CreateOkIff | src/controllers/region.controller.js:45-54 | once the duplicate lookup finds nothing, create succeeds exactly for a non-blank name and a valid type |
| RegionController.ParentNotChecked | src/controllers/region.controller.js:50-54 | a parent id the table does not hold is stored as given, at any level |
| RegionController.UpdateStep | src/controllers/region.controller.js:66-75 | 404 exactly for an absent id; only name (trimmed) and isActive change, never type or parent; a blank name or a clash with another node is a 500 |
| RegionController.UpdateKeepsValid | src/controllers/region.controller.js:72-75 | a successful update keeps the table valid |
| RegionController.CreateKeepsValid | src/controllers/region.controller.js:50-54 | a successful create keeps the table valid |
| RegionController.RemoveCheck | src/controllers/region.controller.js:85-97 | 404 exactly for an absent id; 400 exactly while some node has it as parent; after a deletion no node points to it |
| RegionController.RegionTable.GetById | src/controllers/region.controller.js:23-30 | the node stored under the id, or 404 exactly when there is none |
| RegionController.RegionTable.Insert | src/models/region.model.js:5-31 | answers as `InsertStep`, adds the node only on success, and keeps the table valid |
| RegionController.RegionTable.Create | src/controllers/region.controller.js:37-60 | answers as `CreateStep`, adds the node only on success, and keeps the table valid |
| RegionController.RegionTable.Update | src/controllers/region.controller.js:63-80 | answers as `UpdateStep`, replaces only that node, and keeps the table valid |
| RegionController.RegionTable.Remove | src/controllers/region.controller.js:83-102 | answers as `RemoveCheck`, deletes only that node, and keeps the table valid |
| Common.IdOrNull | src/controllers/user.controller.js:28-29 | an empty id (setRegion's neighborhood and street, the region parent at region.controller.js:53) becomes null and any other is kept |
| UserController.SetRegionSpec | src/controllers/user.controller.js:19-23 | 400 exactly when region or district is missing, with the table unchanged; the only other error is the 500 of a refused insert |
| UserController.SetRegionDefaults | src/controllers/user.controller.js:25-35 | on success region and district are as given, houseType defaults to "private", houseNumber and apartment are kept |
| UserController.SetRegionNeighborhood | src/controllers/user.controller.js:38-46 | a custom name without a neighborhood id becomes a node under the district, the address points to it and the text is cleared; otherwise no such node is made and the id and text are kept |
| UserController.SetRegionStreet | src/controllers/user.controller.js:49-57 | a custom street without a street id becomes a node under the address's neighborhood, given or just created, with the text cleared; otherwise no such node is made and the street id and text are kept |
| UserController.StreetTextWithoutNeighborhood | src/controllers/user.controller.js:49 | street text with no neighborhood at all creates nothing and leaves street null with the text kept |
| UserController.PartialFailureKeepsNeighborhood | src/controllers/user.controller.js:38-57 | the two inserts are not atomic: when the street insert fails, the request fails and the new neighborhood node stays |
| UserController.SetRegionKeepsValid | src/controllers/user.controller.js:38-57 | setRegion keeps the region table valid |
| UserController.SetRegionOnlyAdds | src/controllers/user.controller.js:38-57 | no stored node changes or disappears, and only the two new ids can appear |
| UserController.UserAccount.SetRegion | src/controllers/user.controller.js:5-72 | the answer and the new table are `SetRegionSpec`'s; on success the whole address is replaced by the new one, otherwise it is kept; names are unchanged |
| UserController.UserAccount.UpdateProfile | src/controllers/user.controller.js:88-99 | firstName and lastName change only when given, and nothing else changes |
| Routes.RunChain | src/routes/request.routes.js:14-20 | the handler runs exactly when every middleware passes; otherwise the answer is that of the first one that refuses |
| Routes.PublicRoutesOpen | src/routes/msk.routes.js:19 | listing categories, and reading regions, need no sign-in |
| Routes.SignInRequired | src/routes/request.routes.js:14-20 | every other route answers 401 without a session |
| Routes.UserOnlyRoutes | src/routes/service-report.routes.js:14-20 | create, my, edit, confirm and cancel of every ticket kind admit exactly role "user": the owner and admins get 403 |
| Routes.RoleChain | src/middlewares/auth.middleware.js:34-41 | `protect` followed by `authorize(roles)` on a signed-in user answers exactly as the role check does |
| Routes.PermissionChain | src/middlewares/permission.middleware.js:6-40 | `protect`, the owner-or-admin gate and `checkPermission(m, level)`: a role outside owner and admin is 403, otherwise the permission decision answers |
| Routes.ReadRoutes | src/routes/request.routes.js:18-19 | stats and listing run the owner-or-admin gate, then the module at "read" |
| Routes.ManageRoutes | src/routes/request.routes.js:20 | status updates run the owner-or-admin gate, then the module at "manage" |
| Routes.OwnerOnlyRoutes | src/routes/msk.routes.js:20-22 | category create, update and delete, and region delete, admit the owner only |
| Routes.StaffRoutesIgnorePermissions | src/routes/stats.routes.js:11-12 | the dashboard, by-region statistics and region writes check the role only, never module permissions |
| Routes.NoRegionGate | src/routes/msk.routes.js:15-31 | no route runs checkRegionAccess |
| Routes.RunIgnoresRegionParams | src/middlewares/auth.middleware.js:55-56 | a chain without a region gate does not read the regionId |
| Routes.RegionIdNeverChecked | src/routes/request.routes.js:11-20 | an explicit regionId never changes whether a request is admitted |
| Routes.ReadOnlyAdminListsOnly | src/routes/request.routes.js:19-20 | an admin with "read" on a module can list its tickets but is refused 403 on status updates |
| Routes.StatusImpliesList | src/routes/service-report.routes.js:17-18 | whoever may update a module's statuses may also list its tickets |

## Left out

- `protect`: JWT verification and the user lookup are token handling. The model takes the principal it resolves as an input, or `None` for its 401.
- The GET handlers for one's own tickets and for the profile (`getMyRequests`, `getMyReports`, `getMyOrders`, `getProfile`): they are a find by user with `populate` and `sort`. They make no decision.
- Persistence mechanics are not modelled: `populate`, `sort`, `skip` and `limit` paging, `countDocuments` totals, `Promise.all`. Filters are predicates over one ticket, and no result order is modelled.
- The aggregation pipelines' `$group`, `$lookup`, `$unwind` and `$sort` stages are out. Their output rows are the input of the tally models.
- The service statistics' `problemPercent` and `availablePercent` are left out: they use floating point and `Math.round`.
- ObjectId parsing is not modelled. `new ObjectId` and `createFromHexString` throw on bad hex, which the catch-all answers with 500. Ids are strings here.
- Plain CRUD is out: services, MSK categories, request types and admins. Only the route gates of the MSK category routes are modelled.
- Request bodies whose values are not strings or booleans are not modelled.
- RequestController.StatusStep: takes `status` as a string, so an absent `status` arrives as the empty string and is answered 500. The source assigns `undefined`, which the enum validator accepts; the save unsets the field and the handler answers 200. The model deliberately does not reproduce a ticket without a status.
- `confirmed` is an optional boolean. Other values, such as strings, are not modelled. The source stores `confirmedByUser = confirmed` through Mongoose's Boolean cast, which turns "false", "0" and "no" into false, while it picks the status by JavaScript truthiness. So `{"confirmed": "false"}` confirms a ticket whose stored flag is false. The six members below state their invariants only for a boolean or absent `confirmed`; the source breaks them for the strings the cast maps to false.
- ServiceController.RunKeepsWellFormed: "confirmed only with the user's true flag" holds only when every `confirmed` is a boolean or absent.
- ServiceController.ConfirmedOnlyByUser: holds only for a boolean or absent `confirmed`; a string the Boolean cast maps to false also confirms.
- ServiceController.RunConfirmedNeedsUser: holds only for histories whose `confirmed` values are booleans or absent.
- MskController.RunKeepsWellFormed: "confirmed only with the user's true flag" holds only when every `confirmed` is a boolean or absent.
- MskController.ConfirmedOnlyByUser: holds only for a boolean or absent `confirmed`; a string the Boolean cast maps to false also confirms.
- MskController.RunConfirmedNeedsUser: holds only for histories whose `confirmed` values are booleans or absent.
- The statistics handlers `getComprehensive`, `getTrends` and `getRegionalDetailed` are named by the stats routes, but their code is not part of this model.
- The user schema lacks the address, permissions and assigned region that the middlewares read. The principal type follows the middlewares' use instead.
- `checkRegionAccess` is modelled, but no route runs it. `Routes.NoRegionGate` states this.
- Concurrent saves are out: each handler is atomic on one document.
- Admin, confirm and cancel step functions rely on a stored document having passed validation when it was saved. They do not re-check unchanged required fields. `RunKeepsWellFormed` and the collection invariants show this holds.
- The region list filter does not trim `type` or `parent`.
- ServiceController.StatsRow: takes the group's total as given, because the `$sum` of the second `$group` stage belongs to the pipeline. `CountsPartitionTotal` relates it to the rows.
- UserController.UserAccount.SetRegion: `findByIdAndUpdate` of an absent user answers 200 with null. That case is not modelled, because the user comes from `protect`.
