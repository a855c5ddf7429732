# School equipment lending portal — client core in Dafny

This project models the browser side of a school equipment lending portal.
Students browse equipment and ask to borrow it. Teachers and admins manage
the catalogue and approve, reject or mark returned the borrow requests.

The model covers two gateway modules and five views:

- **The gateways** (`BorrowRequestService`, `EquipmentService`). They validate
  and sanitise what the views hand them. They build the request URL and
  query. They reject falsy ids before any call.
- **The staff request view** (`AdminRequests`). It is modelled as a state
  machine: each user event or settled call maps the view state to the next
  state plus the effects it starts (service calls, re-fetches, alerts).
- **The borrow-request form** (`BorrowRequestForm`): selectable equipment, the
  prefill from the URL, and the pre-checks made before submitting.
- **The equipment dashboard** (`EquipmentList`): filters and their query,
  category options, the description cell, per-role row actions, and deletion.
- **The registration form** (`Register`) and **the navigation bar** (`Header`).

Shared modules:

- `Wrappers`: `Option`, `Result` and `Outcome`, the last usable with `:-`.
- `JsValues`: the JavaScript value shapes the code distinguishes, as
  `Field<T> = Undefined | Null | Empty | Invalid | Given(v)`. `Empty` is `''`
  and `Invalid` is NaN or an unparsable string. The module also defines
  truthiness, numeric comparison (`null` and `''` count as 0, NaN compares
  false) and `parseInt`.
- `Text`: JavaScript's whitespace set, `trim`, the `x?.trim() || fallback`
  idiom, decimal rendering and parsing, and the email pattern `\S+@\S+\.\S+`.
  The pattern is given both as a regex-search predicate and as a decidable
  check, and the two are proved equivalent.
- `Http`: URLs as a path plus an ordered query, and the four call shapes.
- `Domain`: days, the request lifecycle, roles and the equipment row.

Dates are day numbers, and "today" is a parameter. Every service call is a
value (`ApiCall`), so nothing is sent anywhere.

## Model

| member | source | states |
|---|---|---|
| `Domain.ParseStatus` | src/services/BorrowRequestService.js:14-19 | a name parses to a status exactly when it is one of the four wire names, and back to that name |
| `Domain.StatusNameRoundTrip` | src/services/BorrowRequestService.js:14-19 | parsing a status's wire name gives the status back; a name is valid iff some status has it |
| `Domain.Next` | src/components/AdminRequestsComponent.jsx:229-259 | the lifecycle never returns to PENDING or stays put; REJECTED and RETURNED are terminal |
| `Text.LooksLikeEmailIsRegexTest` | src/components/RegisterComponent.jsx:42 | the decidable email check holds exactly when `\S+@\S+\.\S+` matches somewhere in the text |
| `Http.RenderHasQuestionMarkIffQuery` | src/services/BorrowRequestService.js:114-117 | a rendered URL carries a `?` after the path exactly when the query is non-empty |
| `BorrowRequestService.MissingRequired` | src/services/BorrowRequestService.js:206-213 | a required field is listed iff it is undefined, null or empty, in the fixed field order |
| `BorrowRequestService.ValidateRequestData` | src/services/BorrowRequestService.js:205-233 | the first failing check of missing fields, quantity < 1, start before today, end not after start is reported, and the data passes exactly when none fails |
| `BorrowRequestService.ValidRequestIffWellFormed` | src/services/BorrowRequestService.js:205-233 | with genuine values, a request validates iff quantity ≥ 1, start ≥ today and end > start |
| `BorrowRequestService.ZeroQuantityIsNotMissing` | src/services/BorrowRequestService.js:206-218 | a quantity of 0 is reported as below one, never as missing |
| `BorrowRequestService.UnparsableRequestPasses` | src/services/BorrowRequestService.js:216-232 | NaN quantities and Invalid Dates compare false, so such a request passes validation |
| `BorrowRequestService.SanitizeRequestData` | src/services/BorrowRequestService.js:240-248 | a given id and quantity are sent as given and anything else as NaN; dates are unchanged; the reason is trimmed, or `''` when absent or blank |
| `BorrowRequestService.CreateBorrowRequest` | src/services/BorrowRequestService.js:36-47 | a POST of the sanitised data iff validation passes; otherwise the validation error |
| `BorrowRequestService.CreatedRequestIsWellFormed` | src/services/BorrowRequestService.js:36-47 | every created request has both dates present, quantity ≥ 1, start ≥ today and end > start when given |
| `BorrowRequestService.GetRequestById` | src/services/BorrowRequestService.js:54-65 | a falsy id fails with "Request ID is required"; otherwise a GET of that request |
| `BorrowRequestService.GetMyRequests` | src/services/BorrowRequestService.js:71-78 | a GET of `/api/requests/my` without a query |
| `BorrowRequestService.GetPendingRequests` | src/services/BorrowRequestService.js:84-91 | a GET of `/api/requests/pending` without a query |
| `BorrowRequestService.ValidStatus` | src/services/BorrowRequestService.js:106-108 | the status filter is kept iff it is one of the four names |
| `BorrowRequestService.TruthyUserId` | src/services/BorrowRequestService.js:110-112 | the user filter is kept iff the id is truthy, as its decimal text |
| `BorrowRequestService.GetAllRequests` | src/services/BorrowRequestService.js:100-124 | the query holds a valid status and a truthy user id, only those, in that order |
| `BorrowRequestService.UnfilteredListingIsBarePath` | src/services/BorrowRequestService.js:114-117 | with neither filter kept, the URL is the bare path without `?` |
| `BorrowRequestService.GetRequestsByStatus` | src/services/BorrowRequestService.js:308-314 | a status outside the four fails with "Invalid status"; otherwise the status-filtered listing |
| `BorrowRequestService.GetUserRequests` | src/services/BorrowRequestService.js:322-334 | a falsy user id fails; an invalid status is dropped silently |
| `BorrowRequestService.InvalidStatusHandling` | src/services/BorrowRequestService.js:308-334 | the same invalid status is an error for one lookup and is ignored by the other, whose query is then `userId` alone |
| `BorrowRequestService.ValidateApprovalData` | src/services/BorrowRequestService.js:255-259 | approval passes iff the approver id is truthy |
| `BorrowRequestService.SanitizeApprovalData` | src/services/BorrowRequestService.js:266-271 | remarks are trimmed, or "Request approved" when blank; never empty |
| `BorrowRequestService.ApproveRequest` | src/services/BorrowRequestService.js:134-149 | the request id is checked before the approver; a PUT to `/approve` of the sanitised data iff both are truthy |
| `BorrowRequestService.RejectRequest` | src/services/BorrowRequestService.js:158-173 | only the id is checked; the remarks are trimmed, or "Request rejected" when blank |
| `BorrowRequestService.RejectWithBlankRemarksExample` | src/services/BorrowRequestService.js:164-166 | rejecting request 42 with blank remarks sends the default text |
| `BorrowRequestService.ValidateReturnData` | src/services/BorrowRequestService.js:278-289 | a falsy date is required, a date after today is in the future, and every other date passes, an unparsable one included |
| `BorrowRequestService.SanitizeReturnData` | src/services/BorrowRequestService.js:296-301 | the date is unchanged; condition notes are trimmed, or the default text when blank |
| `BorrowRequestService.MarkAsReturned` | src/services/BorrowRequestService.js:183-198 | the id, then the return data, are checked before the PUT to `/return` |
| `BorrowRequestService.CreateBorrowRequestVia` | src/services/BorrowRequestService.js:36-41 | without a receiver, the first `this.` read fails for every input; with the class, it is the create call |
| `BorrowRequestService.ApproveRequestVia` | src/services/BorrowRequestService.js:134-143 | without a receiver, only the id guard runs and every truthy id fails at `this.validateApprovalData` |
| `BorrowRequestService.MarkAsReturnedVia` | src/services/BorrowRequestService.js:183-192 | without a receiver, only the id guard runs and every truthy id fails at `this.validateReturnData` |
| `BorrowRequestService.NamedExportsNeverCall` | src/services/BorrowRequestService.js:337-345 | create, approve and return never produce a call through their named exports |
| `BorrowRequestService.DetachedCreateCounterexample` | src/services/BorrowRequestService.js:337 | a valid request that the class method posts is refused by the export |
| `BorrowRequestService.DetachedApproveAndReturnCounterexample` | src/services/BorrowRequestService.js:343-345 | an approval and a return that the class methods send are refused by the exports |
| `EquipmentService.MissingRequired` | src/services/EquipmentService.js:142-147 | name, category or condition is listed iff absent or blank, in that order |
| `EquipmentService.ValidateEquipmentData` | src/services/EquipmentService.js:141-162 | the first failing check of missing fields, total < 1, available < 0, available > total is reported, and the data passes exactly when none fails |
| `EquipmentService.AcceptedQuantitiesAreConsistent` | src/services/EquipmentService.js:150-161 | with both quantities given, data validates iff the fields are filled and 1 ≤ total and 0 ≤ available ≤ total |
| `EquipmentService.AbsentTotalHandling` | src/services/EquipmentService.js:150-161 | an undefined total skips both total checks; a null or empty total is rejected as below one |
| `EquipmentService.OrOne` | src/services/EquipmentService.js:175-176 | never 0: `parseInt` keeps a non-zero number and gives 1 for zero or NaN |
| `EquipmentService.SanitizeEquipmentData` | src/services/EquipmentService.js:169-179 | names are trimmed and stay absent when absent; the description is the trimmed text, or `''` when absent or blank; quantities go through `OrOne`; availability is true only for `true` |
| `EquipmentService.SanitizedValidDataHasNames` | src/services/EquipmentService.js:141-179 | data that passes validation is sent with a non-empty name, category and condition |
| `EquipmentService.SanitizedValidDataKeepsQuantities` | src/services/EquipmentService.js:141-179 | data that passes validation with given positive quantities is sent with those quantities unchanged, so available ≤ total |
| `EquipmentService.ZeroAvailableIsSentAsOne` | src/services/EquipmentService.js:154-176 | an available quantity of 0 passes validation but is sent as 1 |
| `EquipmentService.AbsentTotalCanBeExceeded` | src/services/EquipmentService.js:150-176 | without a total, available ≥ 2 passes and is sent above the total of 1 |
| `EquipmentService.TrimmedDataIsSentAsGiven` | src/services/EquipmentService.js:169-179 | trimmed names and non-zero quantities are sent unchanged; the missing description and availability become `''` and false |
| `EquipmentService.ProjectorExample` | src/services/EquipmentService.js:169-179 | a concrete projector record is sent as given, with an empty description and availability false |
| `EquipmentService.NonBlankTrim` | src/services/EquipmentService.js:28-38 | a filter is kept iff it is present and not blank, and is sent trimmed and non-empty |
| `EquipmentService.GetAllEquipment` | src/services/EquipmentService.js:22-50 | trimmed non-blank category and search, availableOnly whenever defined (false included), in that order |
| `EquipmentService.UnfilteredListingIsBarePath` | src/services/EquipmentService.js:40-43 | with no filter, the URL is the bare path |
| `EquipmentService.GetAvailableEquipment` | src/services/EquipmentService.js:185-187 | the listing with `availableOnly=true` alone |
| `EquipmentService.SearchEquipment` | src/services/EquipmentService.js:194-200 | a blank term fails; otherwise the query is the trimmed term alone |
| `EquipmentService.GetEquipmentByCategory` | src/services/EquipmentService.js:207-213 | a blank category fails; otherwise the query is the trimmed category alone |
| `EquipmentService.GetEquipmentById` | src/services/EquipmentService.js:57-68 | a falsy id fails; otherwise a GET of that item |
| `EquipmentService.AddEquipment` | src/services/EquipmentService.js:82-93 | a POST of the sanitised data iff validation passes; otherwise the validation error |
| `EquipmentService.UpdateEquipment` | src/services/EquipmentService.js:101-116 | the id is checked before the data; a PUT of the sanitised data iff both pass |
| `EquipmentService.DeleteEquipment` | src/services/EquipmentService.js:123-134 | a DELETE of that item iff the id is truthy |
| `EquipmentService.AddEquipmentVia` | src/services/EquipmentService.js:82-88 | without a receiver, the first `this.` read fails for every input; with the class, it is the add call |
| `EquipmentService.UpdateEquipmentVia` | src/services/EquipmentService.js:101-110 | without a receiver, only the id guard runs and every truthy id fails at `this.validateEquipmentData` |
| `EquipmentService.DetachedAddAndUpdateRefuseValidData` | src/services/EquipmentService.js:219-220 | every item the class methods would add or update is refused through the exports |
| `AdminRequests.ListCall` | src/components/AdminRequestsComponent.jsx:25 | the list query holds the filter iff it is a valid status, and nothing else |
| `AdminRequests.StartFetch` | src/components/AdminRequestsComponent.jsx:23-36 | staff see the loading screen; rows, flags and modal are kept; one GET whose query holds the filter iff it is a valid status |
| `AdminRequests.Mount` | src/components/AdminRequestsComponent.jsx:5-21 | the first render fetches iff the role is staff, with no modal and no busy rows |
| `AdminRequests.ChangeFilter` | src/components/AdminRequestsComponent.jsx:17-21 | a new filter triggers a re-fetch with it iff the role is staff |
| `AdminRequests.FetchSucceeded` | src/components/AdminRequestsComponent.jsx:26-28 | staff see one action cell per new row, computed with the unchanged flags; the modal and the form are kept |
| `AdminRequests.FetchFailed` | src/components/AdminRequestsComponent.jsx:29-35 | staff see the old rows' cells again; flags, modal and form are kept; the one effect is the "Error loading requests." alert |
| `AdminRequests.OpenModal` | src/components/AdminRequestsComponent.jsx:38-70 | the modal opens on the action and request with a blank form; a return's form starts at today |
| `AdminRequests.EditForm` | src/components/AdminRequestsComponent.jsx:157-160 | exactly one form field changes and nothing else in the view |
| `AdminRequests.CloseModal` | src/components/AdminRequestsComponent.jsx:279-284 | the table keeps its cells and closes the modal; the target, the form and every flag are kept |
| `AdminRequests.MutationCall` | src/components/AdminRequestsComponent.jsx:72-134 | a rejection calls `rejectRequest` under either receiver; through the named exports only a rejection can succeed; under the class the approve and return calls are the gateway's |
| `AdminRequests.Submit` | src/components/AdminRequestsComponent.jsx:72-134 | a mutation starts iff a target is set and it is not a dateless return; only its row's flag goes up, and the call is the one `MutationCall` makes with the given receiver |
| `AdminRequests.Settle` | src/components/AdminRequestsComponent.jsx:78-133 | the row's flag drops in any case; success alerts, re-fetches and closes the modal; failure only alerts |
| `AdminRequests.SubmitThenSettleRestoresFlags` | src/components/AdminRequestsComponent.jsx:73-88 | after submit and settle, the row is not busy and every other row's flag is unchanged |
| `AdminRequests.SubmitRaisesOnlyItsFlag` | src/components/AdminRequestsComponent.jsx:336-345 | a submit marks its own row busy, which disables the modal's button, and no other row |
| `AdminRequests.AsWrittenOnlyRejectionsAreSent` | src/components/AdminRequestsComponent.jsx:72-134 | as written, a confirmed action is sent iff it is a rejection of a truthy request id; approvals and returns always fail |
| `AdminRequests.OnlySubmitAndSettleMoveFlags` | src/components/AdminRequestsComponent.jsx:17-70 | fetching, filtering, the list arriving or failing, and opening, editing or closing the modal keep every row's flag |
| `AdminRequests.ActionCell` | src/components/AdminRequestsComponent.jsx:229-259 | PENDING and APPROVED rows get buttons, disabled while busy; terminal rows get "No actions"; unknown statuses nothing |
| `AdminRequests.OfferedActionsFollowLifecycle` | src/components/AdminRequestsComponent.jsx:229-259 | a row offers an action iff the lifecycle allows it from the row's status |
| `AdminRequests.StatusBadge` | src/components/AdminRequestsComponent.jsx:136-144 | a name outside the four gets the fallback badge |
| `AdminRequests.StatusBadgesDistinct` | src/components/AdminRequestsComponent.jsx:136-144 | the four statuses get four different badges, none of them the fallback |
| `AdminRequests.Render` | src/components/AdminRequestsComponent.jsx:162-174 | non-staff are denied first, then loading shows, else one action cell per row |
| `BorrowRequestForm.EquipmentFetch` | src/components/BorrowRequestFormComponent.jsx:29-30 | the list is fetched with `availableOnly=true` alone |
| `BorrowRequestForm.AvailableEquipment` | src/components/BorrowRequestFormComponent.jsx:33 | the select offers exactly the available items with stock, each as often as fetched |
| `BorrowRequestForm.AvailableEquipmentMembers` | src/components/BorrowRequestFormComponent.jsx:33 | an item is offered iff it was fetched and is selectable |
| `BorrowRequestForm.AvailableEquipmentKeepsOrder` | src/components/BorrowRequestFormComponent.jsx:33 | filtering a concatenation filters each part in place, so the fetched order is kept |
| `BorrowRequestForm.AvailableEquipmentCons` | src/components/BorrowRequestFormComponent.jsx:33 | the first fetched item is offered first iff it is selectable |
| `BorrowRequestForm.AvailableEquipmentSingle` | src/components/BorrowRequestFormComponent.jsx:33 | a single item is offered exactly when it is selectable |
| `BorrowRequestForm.EquipmentParam` | src/components/BorrowRequestFormComponent.jsx:22-23 | an absent parameter reads as null, `''` as empty, a run of digits as its decimal value, and any other text as NaN |
| `BorrowRequestForm.Prefill` | src/components/BorrowRequestFormComponent.jsx:22-26 | only the equipment changes: a run of digits in the URL selects that number, other non-empty text is held as NaN, and an absent or empty parameter leaves the form unchanged |
| `BorrowRequestForm.FindEquipment` | src/components/BorrowRequestFormComponent.jsx:68 | the first item with that id, none when no item has it or the id is NaN |
| `BorrowRequestForm.RequestData` | src/components/BorrowRequestFormComponent.jsx:75-81 | ids and quantities through `parseInt` (never missing), dates and reason unchanged |
| `BorrowRequestForm.HandleSubmit` | src/components/BorrowRequestFormComponent.jsx:50-81 | start in the past, end not after start, then quantity over stock block in that order; otherwise the data goes to `createBorrowRequest` run with the given receiver |
| `BorrowRequestForm.SubmittedIffWellFormed` | src/components/BorrowRequestFormComponent.jsx:53-81 | when `handleSubmit` runs on genuine values with the class method as receiver, it sends a request iff the dates are right, quantity ≥ 1 and it is within the listed stock |
| `BorrowRequestForm.UnknownEquipmentSkipsQuantityCheck` | src/components/BorrowRequestFormComponent.jsx:68-72 | when `handleSubmit` runs on an id missing from the list, it never checks that id against stock |
| `BorrowRequestForm.AsWrittenNoRequestIsSent` | src/components/BorrowRequestFormComponent.jsx:73-81 | as written, a form passes the pre-checks exactly as before but its request always fails with the TypeError, so nothing is sent |
| `BorrowRequestForm.UntouchedFormIsRejectedByGateway` | src/components/BorrowRequestFormComponent.jsx:8-14 | if `handleSubmit` ran on the untouched form, the form would pass the pre-checks; the class method would report both dates missing, and the named export the component calls would fail before validating (the browser stops this submit first: `UntouchedFormIsBlockedByBrowser`) |
| `BorrowRequestForm.SubmitEvent` | src/components/BorrowRequestFormComponent.jsx:100-163 | the browser runs `handleSubmit` iff every control meets its `required`/`min`/`max`; then all four fields hold genuine values |
| `BorrowRequestForm.PastBrowserOnlyEqualDatesBlock` | src/components/BorrowRequestFormComponent.jsx:50-72 | once past the browser, `handleSubmit` blocks iff the end date equals the start, and then only with the end-date alert |
| `BorrowRequestForm.SubmitEventSendsIffWellFormed` | src/components/BorrowRequestFormComponent.jsx:100-163 | with the class method as receiver, pressing submit sends a request iff a listed item is selected, 1 ≤ quantity ≤ its available count, and today ≤ start < end |
| `BorrowRequestForm.UntouchedFormIsBlockedByBrowser` | src/components/BorrowRequestFormComponent.jsx:8-14 | the untouched form never reaches `handleSubmit` |
| `BorrowRequestForm.UnlistedEquipmentIsBlockedByBrowser` | src/components/BorrowRequestFormComponent.jsx:103-116 | an id with no option in the select never reaches `handleSubmit` |
| `BorrowRequestForm.OverAvailableIsBlockedByBrowser` | src/components/BorrowRequestFormComponent.jsx:120-131 | a quantity above the selected item's stock never reaches `handleSubmit` |
| `EquipmentList.UpdateFilter` | src/components/EquipmentListComponent.jsx:38-50 | one control changes and the others keep their values |
| `EquipmentList.ClearFilters` | src/components/EquipmentListComponent.jsx:52-58 | all controls are reset, so the next fetch is the bare path |
| `EquipmentList.FetchFilters` | src/components/EquipmentListComponent.jsx:22-26 | category iff non-empty; availableOnly only when checked; search trimmed iff not blank |
| `EquipmentList.FetchQuery` | src/components/EquipmentListComponent.jsx:22-28 | on the wire: trimmed non-blank category and search, and `availableOnly=true` or nothing, never `false` |
| `EquipmentList.Distinct` | src/components/EquipmentListComponent.jsx:30 | the same values without repeats, in first-occurrence order |
| `EquipmentList.Categories` | src/components/EquipmentListComponent.jsx:30 | each loaded category appears exactly once, nothing else does, and they come in first-occurrence order |
| `EquipmentList.DescriptionCell` | src/components/EquipmentListComponent.jsx:183-189 | `-` when absent or empty; the first 50 characters plus `...` when longer; else the text |
| `EquipmentList.DescriptionCellBounded` | src/components/EquipmentListComponent.jsx:183-189 | a shown description is at most 53 characters and is the text or its 50-character prefix |
| `EquipmentList.RowActions` | src/components/EquipmentListComponent.jsx:196-225 | staff get Edit and Delete; a student gets Request iff the item is available with stock, and "Not Available" iff unavailable or out of stock |
| `EquipmentList.StudentSeesOneOfRequestOrNote` | src/components/EquipmentListComponent.jsx:214-224 | with a non-negative count a student sees exactly one of the two; a negative count shows neither |
| `EquipmentList.RequestLink` | src/components/EquipmentListComponent.jsx:72-74 | Request leads to the borrow form with the item's id in the query |
| `EquipmentList.RequestLinkPrefillsForm` | src/components/EquipmentListComponent.jsx:72-74 | following Request opens the form with that item selected |
| `EquipmentList.HandleDelete` | src/components/EquipmentListComponent.jsx:60-62 | nothing happens unless confirmed; a confirmed delete calls the gateway, which refuses id 0 |
| `EquipmentList.DeleteSettled` | src/components/EquipmentListComponent.jsx:62-68 | the list is re-fetched with the current filters iff the delete succeeded |
| `EquipmentList.CountLabel` | src/components/EquipmentListComponent.jsx:139 | the count line is singular for exactly one item |
| `Register.FullNameError` | src/components/RegisterComponent.jsx:30-32 | a message iff the full name is blank |
| `Register.LengthError` | src/components/RegisterComponent.jsx:34-50 | blank text is reported first, then text shorter than the minimum |
| `Register.EmailError` | src/components/RegisterComponent.jsx:40-44 | blank email is required; otherwise it is invalid iff the pattern does not match |
| `Register.FieldError` | src/components/RegisterComponent.jsx:27-54 | messages are never empty, and the role is never checked |
| `Register.ValidateForm` | src/components/RegisterComponent.jsx:27-54 | a field has an entry iff its check fails, holding that check's message |
| `Register.ValidIffAcceptable` | src/components/RegisterComponent.jsx:27-54 | a form is valid iff name, username ≥ 3, an email matching the pattern, and password ≥ 6 are given |
| `Register.InitialFormIsIncomplete` | src/components/RegisterComponent.jsx:6-12 | the untouched form reports all four text fields as required |
| `Register.Set` | src/components/RegisterComponent.jsx:57-62 | the named field takes the value and no other field changes |
| `Register.HandleInputChange` | src/components/RegisterComponent.jsx:57-71 | typing empties that field's message and leaves every other message as it was |
| `Register.HandleSubmit` | src/components/RegisterComponent.jsx:74-81 | the form is sent as it stands iff it is valid; otherwise there is no call |
| `Register.OnlyStudentsRegister` | src/components/RegisterComponent.jsx:6-16 | from the initial form, with any typing and the role chosen from the select, the role stays STUDENT, so every registration is a student's |
| `Header.NavLinks` | src/components/HeaderComponent.jsx:32-77 | Equipment and Logout iff logged in; My Requests iff a student; Manage iff staff; Register and Login iff logged out |
| `Header.NavLinksByAudience` | src/components/HeaderComponent.jsx:8-77 | nobody sees both request links; anonymous users see exactly Register and Login |

## Findings

| source | as written | input that shows it | evidently intended | confidence | as-written member | corrected member |
|---|---|---|---|---|---|---|
| src/services/BorrowRequestService.js:337 | the named export is the bare static method, whose body reads `this.validateRequestData` (line 39); called as a plain function, `this` is undefined and the call rejects with a TypeError | any request, e.g. equipment 3, one item, days 10 to 12, today day 10 | validate, then POST the sanitised request | high (ES module code is strict); not executed | `BorrowRequestService.DetachedCreateCounterexample` | `BorrowRequestService.CreateBorrowRequest` |
| src/services/BorrowRequestService.js:343-345 | `approveRequest` and `markAsReturned` are exported the same way; after the id guard they read `this.validateApprovalData` / `this.validateReturnData` (lines 141, 190) | approve request 5 as user 7; return request 5 on day 3 with today day 4 | PUT to `/approve` and `/return` | high; not executed | `BorrowRequestService.DetachedApproveAndReturnCounterexample` | `BorrowRequestService.ApproveRequest` |
| src/services/EquipmentService.js:219-220 | `addEquipment` and `updateEquipment` read `this.validateEquipmentData` (lines 85, 108) when called through their named exports | any data that validates, with a non-zero id | POST / PUT the sanitised item | high; not executed | `EquipmentService.DetachedAddAndUpdateRefuseValidData` | `EquipmentService.AddEquipment` |

The form and the staff view take the gateway's receiver as a parameter.
With `ServiceClass` they behave as evidently intended, through the corrected
members. With `ExportReceiver`, the one the components actually use, they
behave as written: `BorrowRequestForm.AsWrittenNoRequestIsSent` and
`AdminRequests.AsWrittenOnlyRejectionsAreSent` state what then reaches the
server.

## Left out

- `apiClient.js`, `AuthService.js` and the routes in `App.jsx` are not part
  of this model. They are the transport, token storage and routing over
  libraries that are not modelled. A call is represented by the `ApiCall`
  value a gateway would hand to the transport.
- Login state and the stored role and user id come from browser storage.
  They are parameters here.
- The pages that only render (`MyRequestsComponent.jsx`,
  `EquipmentFormComponent.jsx`, `LoadingSpinner.jsx`) are not modelled. Nor
  is the markup of the modelled views, beyond the buttons, cells, links and
  messages their contracts mention.
- Query values are not percent-encoded in `Http.Render`. `URLSearchParams`
  would encode spaces and reserved characters.
- Promises, alerts, `console` output and navigation are modelled as effects
  or results. A settled call's success is a parameter (`ok`, `serverOk`),
  because it depends on the server.
- Dates are day numbers and "today" is a parameter. Time zones, the time of
  day in `new Date()`, and UTC parsing of `YYYY-MM-DD` against local
  midnight are not modelled.
- `BorrowRequestService.ValidateReturnData`: compares the return day with
  today's day number, whereas the source compares a UTC midnight with the
  current instant.
- String lengths are counted in characters, not UTF-16 code units.
- `parseInt` of text with trailing non-digits, and number-versus-string
  coercions beyond `null`, `''`, NaN and numbers, are not modelled. A field
  is one of the five `Field` shapes.
- `EquipmentService.SanitizeEquipmentData`: availability is true only for
  the boolean `true`; `Boolean()` of other truthy values is not modelled.
- `BorrowRequestForm.HandleSubmit`: models the handler when it runs. The
  browser's constraint validation, which decides whether it runs, is
  `BorrowRequestForm.SubmitEvent`. The `min` of the date inputs is the UTC
  date of `toISOString()` and is taken to be the same day as "today".
  Non-integer quantities and a select whose option text differs from the
  id's digits (such as `007`) are not modelled.
- `AdminRequests.StatusBadge`: the source looks the status up in an object
  literal, so inherited keys such as `constructor` would not get the
  fallback badge. Only the status names are modelled, and the server sends
  only the four statuses.
- `BorrowRequestForm.SubmittedIffWellFormed`: is stated for the class
  receiver. As written the component calls the named export, and then no
  request is sent at all (`BorrowRequestForm.AsWrittenNoRequestIsSent`).
- `AdminRequests.SubmitThenSettleRestoresFlags`: the settlement's success is
  a parameter and is not tied to the call's outcome; as written an approval
  or a return always settles as a failure
  (`AdminRequests.AsWrittenOnlyRejectionsAreSent`).
- `AdminRequests.Submit`: takes the form to submit as an argument. The
  source's modal action is a closure built when the modal opened, so it may
  see an older form; that staleness is not modelled.
- The `formatDate`, `reason || '-'` and `remarks || '-'` display cells of
  the staff table are not modelled.
