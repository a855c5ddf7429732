/** The borrow-request gateway: validation and sanitising of the create,
    approve, reject and return payloads, and the query built for listing
    requests. Each operation either fails before any call (the source throws)
    or yields exactly the one HTTP call it would make. */
module BorrowRequestService {
  import opened Wrappers
  import opened JsValues
  import opened Text
  import opened Http
  import opened Domain

  const BasePath := "/api/requests"
  const MyRequestsPath := "/api/requests/my"
  const PendingPath := "/api/requests/pending"

  function ByIdPath(id: int): string { BasePath + "/" + IntToString(id) }
  function ApprovePath(id: int): string { ByIdPath(id) + "/approve" }
  function RejectPath(id: int): string { ByIdPath(id) + "/reject" }
  function ReturnPath(id: int): string { ByIdPath(id) + "/return" }

  const DefaultApprovalRemarks := "Request approved"
  const DefaultRejectionRemarks := "Request rejected"
  const DefaultConditionNotes := "No condition notes provided"

  /** The required fields of a new request, in the order they are reported. */
  datatype RequestField = EquipmentIdField | QuantityField | FromDateField | ToDateField

  const RequiredFields: seq<RequestField> := [EquipmentIdField, QuantityField, FromDateField, ToDateField]

  function FieldName(f: RequestField): string {
    match f
    case EquipmentIdField => "equipmentId"
    case QuantityField => "quantity"
    case FromDateField => "fromDate"
    case ToDateField => "toDate"
  }

  /** Position of a field in `RequiredFields`. */
  function Rank(f: RequestField): (k: nat)
    ensures k < |RequiredFields| && RequiredFields[k] == f
  {
    match f
    case EquipmentIdField => 0
    case QuantityField => 1
    case FromDateField => 2
    case ToDateField => 3
  }

  /** The create payload as the caller passes it. */
  datatype RequestData = RequestData(
    equipmentId: Field<int>,
    quantity: Field<int>,
    fromDate: Field<Day>,
    toDate: Field<Day>,
    reason: Option<string>)

  function FieldValue(d: RequestData, f: RequestField): Field<int> {
    match f
    case EquipmentIdField => d.equipmentId
    case QuantityField => d.quantity
    case FromDateField => d.fromDate
    case ToDateField => d.toDate
  }

  datatype ApprovalData = ApprovalData(approvedBy: Field<int>, remarks: Option<string>)

  datatype ReturnData = ReturnData(returnDate: Field<Day>, conditionAfterUse: Option<string>)

  /** The payloads this gateway sends. */
  datatype Body =
    | NewRequest(equipmentId: Field<int>, quantity: Field<int>, fromDate: Field<Day>, toDate: Field<Day>, reason: string)
    | Approval(approvedBy: Field<int>, remarks: string)
    | Rejection(remarks: string)
    | ReturnNote(returnDate: Field<Day>, conditionAfterUse: string)

  /** Which guard asked for the request id. */
  datatype IdUse = ForLookup | ForApproval | ForRejection | ForReturn

  datatype Error =
    | MissingFields(fields: seq<RequestField>)
    | QuantityBelowOne
    | FromDateInPast
    | ToDateNotAfterFrom
    | RequestIdRequired(use: IdUse)
    | ApproverRequired
    | ReturnDateRequired
    | ReturnDateInFuture
    | InvalidStatus(status: string)
    | UserIdRequired
    | ReceiverUndefined(property: string)

  /** The text of the Error the source throws. */
  function Message(e: Error): string {
    match e
    case MissingFields(fs) => "Missing required fields: " + Join(seq(|fs|, i requires 0 <= i < |fs| => FieldName(fs[i])), ", ")
    case QuantityBelowOne => "Quantity must be at least 1"
    case FromDateInPast => "From date cannot be in the past"
    case ToDateNotAfterFrom => "To date must be after from date"
    case RequestIdRequired(ForLookup) => "Request ID is required"
    case RequestIdRequired(ForApproval) => "Request ID is required for approval"
    case RequestIdRequired(ForRejection) => "Request ID is required for rejection"
    case RequestIdRequired(ForReturn) => "Request ID is required for return"
    case ApproverRequired => "Approver ID is required"
    case ReturnDateRequired => "Return date is required"
    case ReturnDateInFuture => "Return date cannot be in the future"
    case InvalidStatus(s) => "Invalid status: " + s
    case UserIdRequired => "User ID is required"
    case ReceiverUndefined(p) => UndefinedReadMessage(p)
  }

  // ----- create -----

  /** The required fields that are undefined, null or '', in the fixed order. */
  function MissingRequired(d: RequestData): (r: seq<RequestField>)
    ensures forall f :: f in r <==> FieldValue(d, f).IsMissing()
    ensures forall i, j :: 0 <= i < j < |r| ==> Rank(r[i]) < Rank(r[j])
  {
    (if d.equipmentId.IsMissing() then [EquipmentIdField] else [])
    + (if d.quantity.IsMissing() then [QuantityField] else [])
    + (if d.fromDate.IsMissing() then [FromDateField] else [])
    + (if d.toDate.IsMissing() then [ToDateField] else [])
  }

  /** `data.quantity < 1`. */
  predicate QuantityTooSmall(d: RequestData) {
    Below(d.quantity, 1)
  }

  /** `new Date(data.fromDate) < today` (false on an Invalid Date). */
  predicate StartsBefore(d: RequestData, today: Day) {
    var f := ToDate(d.fromDate); f.Some? && f.value < today
  }

  /** `new Date(data.toDate) <= new Date(data.fromDate)` (false on an Invalid Date). */
  predicate EndsNoLaterThanStart(d: RequestData) {
    var f, t := ToDate(d.fromDate), ToDate(d.toDate);
    f.Some? && t.Some? && t.value <= f.value
  }

  /** `validateRequestData`: the checks run in the order missing fields,
      quantity, start date, end date, and the first failing one is reported. */
  function ValidateRequestData(d: RequestData, today: Day): (r: Outcome<Error>)
    ensures r == Fail(MissingFields(MissingRequired(d))) <==> MissingRequired(d) != []
    ensures r == Fail(QuantityBelowOne) <==> MissingRequired(d) == [] && QuantityTooSmall(d)
    ensures r == Fail(FromDateInPast) <==>
      MissingRequired(d) == [] && !QuantityTooSmall(d) && StartsBefore(d, today)
    ensures r == Fail(ToDateNotAfterFrom) <==>
      MissingRequired(d) == [] && !QuantityTooSmall(d) && !StartsBefore(d, today) && EndsNoLaterThanStart(d)
    ensures r.Fail? ==> r.error.MissingFields? || r.error in {QuantityBelowOne, FromDateInPast, ToDateNotAfterFrom}
    ensures r.Pass? <==>
      MissingRequired(d) == [] && !QuantityTooSmall(d) && !StartsBefore(d, today) && !EndsNoLaterThanStart(d)
  {
    var missing := MissingRequired(d);
    if missing != [] then Fail(MissingFields(missing))
    else if QuantityTooSmall(d) then Fail(QuantityBelowOne)
    else if StartsBefore(d, today) then Fail(FromDateInPast)
    else if EndsNoLaterThanStart(d) then Fail(ToDateNotAfterFrom)
    else Pass
  }

  /** For fields holding genuine values, validation accepts exactly the
      requests with quantity at least 1 that start no earlier than today
      and end strictly after they start. */
  lemma ValidRequestIffWellFormed(d: RequestData, today: Day)
    requires d.equipmentId.Given? && d.quantity.Given? && d.fromDate.Given? && d.toDate.Given?
    ensures ValidateRequestData(d, today) == Pass <==>
      d.quantity.value >= 1 && d.fromDate.value >= today && d.toDate.value > d.fromDate.value
  {
  }

  /** Zero is a value, not a missing field: a quantity of 0 is reported as
      below one, never as missing. */
  lemma ZeroQuantityIsNotMissing(d: RequestData, today: Day)
    requires d.quantity == Given(0)
    requires !d.equipmentId.IsMissing() && !d.fromDate.IsMissing() && !d.toDate.IsMissing()
    ensures QuantityField !in MissingRequired(d)
    ensures ValidateRequestData(d, today) == Fail(QuantityBelowOne)
  {
  }

  /** NaN compares false with everything, so a request whose quantity and
      dates do not parse passes validation. */
  lemma UnparsableRequestPasses(d: RequestData, today: Day)
    requires d.equipmentId.Given? && d.quantity.Invalid? && d.fromDate.Invalid? && d.toDate.Invalid?
    ensures ValidateRequestData(d, today) == Pass
  {
  }

  /** `sanitizeRequestData`: ids and quantities through `parseInt`, dates
      unchanged, the reason trimmed or ''. */
  function SanitizeRequestData(d: RequestData): (b: Body)
    ensures b.NewRequest?
    ensures b.fromDate == d.fromDate && b.toDate == d.toDate
    ensures b.equipmentId.Given? <==> d.equipmentId.Given?
    ensures d.equipmentId.Given? ==> b.equipmentId == d.equipmentId
    ensures !d.equipmentId.Given? ==> b.equipmentId == Invalid
    ensures b.quantity.Given? <==> d.quantity.Given?
    ensures d.quantity.Given? ==> b.quantity == d.quantity
    ensures !d.quantity.Given? ==> b.quantity == Invalid
    ensures d.reason.Some? && !IsBlank(d.reason.value) ==> b.reason == Trim(d.reason.value)
    ensures b.reason == "" <==> d.reason.None? || IsBlank(d.reason.value)
    ensures IsTrimmed(b.reason)
  {
    NewRequest(ParseInt(d.equipmentId), ParseInt(d.quantity), d.fromDate, d.toDate, TrimOr(d.reason, ""))
  }

  /** `createBorrowRequest`: a POST of the sanitised data, made only when validation passes. */
  function CreateBorrowRequest(d: RequestData, today: Day): (r: Result<ApiCall<Body>, Error>)
    ensures r.Success? <==> ValidateRequestData(d, today) == Pass
    ensures r.Failure? ==> ValidateRequestData(d, today) == Fail(r.error)
    ensures r.Success? ==> r.value == Post(Bare(BasePath), SanitizeRequestData(d))
  {
    match ValidateRequestData(d, today)
    case Fail(e) => Failure(e)
    case Pass => Success(Post(Bare(BasePath), SanitizeRequestData(d)))
  }

  /** Whatever a successful create sends with genuine values respects the
      date and quantity rules. */
  lemma CreatedRequestIsWellFormed(d: RequestData, today: Day)
    requires CreateBorrowRequest(d, today).Success?
    ensures var b := CreateBorrowRequest(d, today).value.body;
      && (b.quantity.Given? ==> b.quantity.value >= 1)
      && (b.fromDate.Given? ==> b.fromDate.value >= today)
      && (b.fromDate.Given? && b.toDate.Given? ==> b.toDate.value > b.fromDate.value)
      && !b.fromDate.IsMissing() && !b.toDate.IsMissing()
  {
  }

  // ----- lookups -----

  /** `getRequestById`: a falsy id is rejected before any call. */
  function GetRequestById(id: Field<int>): (r: Result<ApiCall<Body>, Error>)
    ensures r.Success? <==> IsTruthyNumber(id)
    ensures r.Failure? ==> r.error == RequestIdRequired(ForLookup)
    ensures r.Success? ==> r.value == Get(Bare(ByIdPath(id.value)))
  {
    if !IsTruthyNumber(id) then Failure(RequestIdRequired(ForLookup))
    else Success(Get(Bare(ByIdPath(id.value))))
  }

  /** `getMyRequests`: a GET of the caller's own requests, with no query. */
  function GetMyRequests(): (r: ApiCall<Body>)
    ensures r.Get? && r.url.query == [] && Render(r.url) == "/api/requests/my"
  {
    Get(Bare(MyRequestsPath))
  }

  /** `getPendingRequests`: a GET of the pending requests, with no query. */
  function GetPendingRequests(): (r: ApiCall<Body>)
    ensures r.Get? && r.url.query == [] && Render(r.url) == "/api/requests/pending"
  {
    Get(Bare(PendingPath))
  }

  /** The status filter that is kept: one of the four status names. */
  function ValidStatus(status: Option<string>): (r: Option<string>)
    ensures r.Some? <==> status.Some? && IsStatusName(status.value)
    ensures r.Some? ==> r == status
  {
    if status.Some? && IsStatusName(status.value) then status else None
  }

  /** The user-id filter that is kept: a truthy id, as `String(userId)`. */
  function TruthyUserId(userId: Field<int>): (r: Option<string>)
    ensures r.Some? <==> IsTruthyNumber(userId)
    ensures r.Some? ==> r.value == IntToString(userId.value)
  {
    if IsTruthyNumber(userId) then Some(IntToString(userId.value)) else None
  }

  /** `getAllRequests({status, userId})`: a GET of the base path whose query
      holds the status only when it is one of the four, the user id only when
      it is truthy, in that order, and nothing else. */
  function GetAllRequests(status: Option<string>, userId: Field<int>): (r: ApiCall<Body>)
    ensures r.Get? && r.url.path == BasePath
    ensures Lookup(r.url.query, "status") == ValidStatus(status)
    ensures Lookup(r.url.query, "userId") == TruthyUserId(userId)
    ensures Keys(r.url.query) ==
      (if ValidStatus(status).Some? then ["status"] else [])
      + (if TruthyUserId(userId).Some? then ["userId"] else [])
  {
    var s := OptionalParam("status", ValidStatus(status));
    var u := OptionalParam("userId", TruthyUserId(userId));
    KeysAppend(s, u);
    LookupAppend(s, u, "status");
    LookupAppend(s, u, "userId");
    Get(Url(BasePath, s + u))
  }

  /** With no valid status and no truthy user id the listing URL is the bare
      path, without a '?'. */
  lemma UnfilteredListingIsBarePath(status: Option<string>, userId: Field<int>)
    requires status.None? || !IsStatusName(status.value)
    requires !IsTruthyNumber(userId)
    ensures Render(GetAllRequests(status, userId).url) == BasePath
    ensures '?' !in Render(GetAllRequests(status, userId).url)
  {
  }

  /** `getRequestsByStatus`: a status outside the four is an error. */
  function GetRequestsByStatus(status: string): (r: Result<ApiCall<Body>, Error>)
    ensures r.Failure? <==> !IsStatusName(status)
    ensures r.Failure? ==> r.error == InvalidStatus(status)
    ensures r.Success? ==> r.value == GetAllRequests(Some(status), Undefined)
  {
    if !IsStatusName(status) then Failure(InvalidStatus(status))
    else Success(GetAllRequests(Some(status), Undefined))
  }

  /** `getUserRequests`: the user id is required, an invalid status is
      silently dropped. */
  function GetUserRequests(userId: Field<int>, status: Option<string>): (r: Result<ApiCall<Body>, Error>)
    ensures r.Failure? <==> !IsTruthyNumber(userId)
    ensures r.Failure? ==> r.error == UserIdRequired
    ensures r.Success? ==> r.value == GetAllRequests(ValidStatus(status), userId)
  {
    if !IsTruthyNumber(userId) then Failure(UserIdRequired)
    else
      var filter := if status.Some? && IsStatusName(status.value) then status else None;
      Success(GetAllRequests(filter, userId))
  }

  /** The two status-filtered lookups disagree on an invalid status: one
      throws, the other lists all of the user's requests. */
  lemma InvalidStatusHandling(status: string, userId: int)
    requires !IsStatusName(status) && userId != 0
    ensures GetRequestsByStatus(status) == Failure(InvalidStatus(status))
    ensures GetUserRequests(Given(userId), Some(status))
      == Success(GetAllRequests(None, Given(userId)))
    ensures Keys(GetUserRequests(Given(userId), Some(status)).value.url.query) == ["userId"]
  {
  }

  // ----- approve / reject / return -----

  /** `validateApprovalData`. */
  function ValidateApprovalData(data: ApprovalData): (r: Outcome<Error>)
    ensures r.Pass? <==> IsTruthyNumber(data.approvedBy)
    ensures r.Fail? ==> r.error == ApproverRequired
  {
    if !IsTruthyNumber(data.approvedBy) then Fail(ApproverRequired) else Pass
  }

  /** `sanitizeApprovalData`: the remarks trimmed, or the approval default. */
  function SanitizeApprovalData(data: ApprovalData): (b: Body)
    ensures b.Approval?
    ensures data.approvedBy.Given? ==> b.approvedBy == data.approvedBy
    ensures b.remarks != "" && IsTrimmed(b.remarks)
    ensures data.remarks.Some? && !IsBlank(data.remarks.value) ==> b.remarks == Trim(data.remarks.value)
    ensures data.remarks.None? || IsBlank(data.remarks.value) ==> b.remarks == DefaultApprovalRemarks
  {
    Approval(ParseInt(data.approvedBy), TrimOr(data.remarks, DefaultApprovalRemarks))
  }

  /** `approveRequest`: the id is checked first, then the approver. */
  function ApproveRequest(id: Field<int>, data: ApprovalData): (r: Result<ApiCall<Body>, Error>)
    ensures r.Success? <==> IsTruthyNumber(id) && IsTruthyNumber(data.approvedBy)
    ensures !IsTruthyNumber(id) ==> r == Failure(RequestIdRequired(ForApproval))
    ensures IsTruthyNumber(id) && !IsTruthyNumber(data.approvedBy) ==> r == Failure(ApproverRequired)
    ensures r.Success? ==> r.value == Put(Bare(ApprovePath(id.value)), SanitizeApprovalData(data))
  {
    if !IsTruthyNumber(id) then Failure(RequestIdRequired(ForApproval))
    else
      :- ValidateApprovalData(data);
      Success(Put(Bare(ApprovePath(id.value)), SanitizeApprovalData(data)))
  }

  /** `rejectRequest`: only `{remarks}` is sent, defaulting to the rejection text. */
  function RejectRequest(id: Field<int>, remarks: Option<string>): (r: Result<ApiCall<Body>, Error>)
    ensures r.Failure? <==> !IsTruthyNumber(id)
    ensures r.Failure? ==> r.error == RequestIdRequired(ForRejection)
    ensures r.Success? ==> r.value.Put? && r.value.url == Bare(RejectPath(id.value))
    ensures r.Success? ==> r.value.body.Rejection?
    ensures r.Success? ==> r.value.body.remarks != "" && IsTrimmed(r.value.body.remarks)
    ensures r.Success? && remarks.Some? && !IsBlank(remarks.value) ==>
      r.value.body.remarks == Trim(remarks.value)
    ensures r.Success? && (remarks.None? || IsBlank(remarks.value)) ==>
      r.value.body.remarks == DefaultRejectionRemarks
  {
    if !IsTruthyNumber(id) then Failure(RequestIdRequired(ForRejection))
    else Success(Put(Bare(RejectPath(id.value)), Rejection(TrimOr(remarks, DefaultRejectionRemarks))))
  }

  /** Rejecting request 42 with blank remarks sends the default text. */
  lemma RejectWithBlankRemarksExample()
    ensures RejectRequest(Given(42), Some("  ")) ==
      Success(Put(Bare(RejectPath(42)), Rejection("Request rejected")))
  {
    assert IsBlank("  ");
  }

  /** `validateReturnData`: the date must be present and not after today. */
  function ValidateReturnData(data: ReturnData, today: Day): (r: Outcome<Error>)
    ensures r == Fail(ReturnDateRequired) <==> !IsTruthyText(data.returnDate)
    ensures r == Fail(ReturnDateInFuture) <==>
      data.returnDate.Given? && data.returnDate.value > today
    ensures r.Pass? <==> IsTruthyText(data.returnDate) && !(data.returnDate.Given? && data.returnDate.value > today)
    ensures data.returnDate.Invalid? ==> r.Pass?
  {
    if !IsTruthyText(data.returnDate) then Fail(ReturnDateRequired)
    else
      var d := ToDate(data.returnDate);
      if d.Some? && d.value > today then Fail(ReturnDateInFuture) else Pass
  }

  /** `sanitizeReturnData`: the date unchanged, the condition notes trimmed
      or the default text. */
  function SanitizeReturnData(data: ReturnData): (b: Body)
    ensures b.ReturnNote? && b.returnDate == data.returnDate
    ensures b.conditionAfterUse != "" && IsTrimmed(b.conditionAfterUse)
    ensures data.conditionAfterUse.Some? && !IsBlank(data.conditionAfterUse.value) ==>
      b.conditionAfterUse == Trim(data.conditionAfterUse.value)
    ensures data.conditionAfterUse.None? || IsBlank(data.conditionAfterUse.value) ==>
      b.conditionAfterUse == DefaultConditionNotes
  {
    ReturnNote(data.returnDate, TrimOr(data.conditionAfterUse, DefaultConditionNotes))
  }

  /** `markAsReturned`: the id, then the return data, are checked before the PUT. */
  function MarkAsReturned(id: Field<int>, data: ReturnData, today: Day): (r: Result<ApiCall<Body>, Error>)
    ensures r.Success? <==> IsTruthyNumber(id) && ValidateReturnData(data, today).Pass?
    ensures !IsTruthyNumber(id) ==> r == Failure(RequestIdRequired(ForReturn))
    ensures IsTruthyNumber(id) && ValidateReturnData(data, today).Fail? ==>
      r == Failure(ValidateReturnData(data, today).error)
    ensures r.Success? ==> r.value == Put(Bare(ReturnPath(id.value)), SanitizeReturnData(data))
  {
    if !IsTruthyNumber(id) then Failure(RequestIdRequired(ForReturn))
    else
      :- ValidateReturnData(data, today);
      Success(Put(Bare(ReturnPath(id.value)), SanitizeReturnData(data)))
  }

  // ----- the named exports -----

  /** The receiver the components' calls run with: each named export is the
      bare static method, and the components call it as a plain function. */
  const ExportReceiver := NoReceiver

  /** `createBorrowRequest` as run with receiver `recv`: its first statement
      reads `this.validateRequestData`. */
  function CreateBorrowRequestVia(recv: Receiver, d: RequestData, today: Day): (r: Result<ApiCall<Body>, Error>)
    ensures recv == ServiceClass ==> r == CreateBorrowRequest(d, today)
    ensures recv == NoReceiver ==> r == Failure(ReceiverUndefined("validateRequestData"))
  {
    if recv == NoReceiver then Failure(ReceiverUndefined("validateRequestData"))
    else CreateBorrowRequest(d, today)
  }

  /** `approveRequest` as run with receiver `recv`: the id guard comes before
      the read of `this.validateApprovalData`. */
  function ApproveRequestVia(recv: Receiver, id: Field<int>, data: ApprovalData): (r: Result<ApiCall<Body>, Error>)
    ensures recv == ServiceClass ==> r == ApproveRequest(id, data)
    ensures recv == NoReceiver ==> r.Failure?
    ensures recv == NoReceiver && !IsTruthyNumber(id) ==> r.error == RequestIdRequired(ForApproval)
    ensures recv == NoReceiver && IsTruthyNumber(id) ==> r.error == ReceiverUndefined("validateApprovalData")
  {
    if !IsTruthyNumber(id) then Failure(RequestIdRequired(ForApproval))
    else if recv == NoReceiver then Failure(ReceiverUndefined("validateApprovalData"))
    else ApproveRequest(id, data)
  }

  /** `markAsReturned` as run with receiver `recv`: the id guard comes before
      the read of `this.validateReturnData`. */
  function MarkAsReturnedVia(recv: Receiver, id: Field<int>, data: ReturnData, today: Day): (r: Result<ApiCall<Body>, Error>)
    ensures recv == ServiceClass ==> r == MarkAsReturned(id, data, today)
    ensures recv == NoReceiver ==> r.Failure?
    ensures recv == NoReceiver && !IsTruthyNumber(id) ==> r.error == RequestIdRequired(ForReturn)
    ensures recv == NoReceiver && IsTruthyNumber(id) ==> r.error == ReceiverUndefined("validateReturnData")
  {
    if !IsTruthyNumber(id) then Failure(RequestIdRequired(ForReturn))
    else if recv == NoReceiver then Failure(ReceiverUndefined("validateReturnData"))
    else MarkAsReturned(id, data, today)
  }

  /** Through the named exports, create, approve and return never reach the
      server, whatever they are given; reject, whose body never reads `this`,
      is unaffected. */
  lemma NamedExportsNeverCall(d: RequestData, id: Field<int>, approval: ApprovalData, ret: ReturnData, today: Day)
    ensures CreateBorrowRequestVia(ExportReceiver, d, today).Failure?
    ensures ApproveRequestVia(ExportReceiver, id, approval).Failure?
    ensures MarkAsReturnedVia(ExportReceiver, id, ret, today).Failure?
  {
  }

  /** A request for one item from day 10 to day 12, made on day 10, is
      posted by the class method and refused by the named export. */
  lemma DetachedCreateCounterexample()
    ensures var d := RequestData(Given(3), Given(1), Given(10), Given(12), None);
      && CreateBorrowRequest(d, 10).Success?
      && CreateBorrowRequestVia(ExportReceiver, d, 10) == Failure(ReceiverUndefined("validateRequestData"))
  {
  }

  /** Approving request 5 as user 7 is sent by the class method and refused
      by the named export; so is returning it on day 3 when today is day 4. */
  lemma DetachedApproveAndReturnCounterexample()
    ensures ApproveRequest(Given(5), ApprovalData(Given(7), None)).Success?
    ensures ApproveRequestVia(ExportReceiver, Given(5), ApprovalData(Given(7), None)).Failure?
    ensures MarkAsReturned(Given(5), ReturnData(Given(3), None), 4).Success?
    ensures MarkAsReturnedVia(ExportReceiver, Given(5), ReturnData(Given(3), None), 4).Failure?
  {
  }
}
