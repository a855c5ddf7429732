/** The staff view that lists borrow requests and approves, rejects or
    marks them returned, as a state machine: each user event or settled
    call maps the view state to a new state and the effects it triggers
    (service calls, re-fetches, alerts). */
module AdminRequests {
  import opened Wrappers
  import opened JsValues
  import opened Http
  import opened Domain
  import Service = BorrowRequestService

  /** What a modal confirms: the action and the request it applies to
      (`modalData`; None is its initial `{type: '', requestId: '', action: null}`). */
  datatype ModalTarget = ModalTarget(action: Action, requestId: int)

  /** The modal form fields; `returnDate` is the date input's text. */
  datatype ModalForm = ModalForm(remarks: string, returnDate: Field<Day>, conditionAfterUse: string)

  const BlankForm := ModalForm("", Empty, "")

  /** A listed request, reduced to what drives the actions column. */
  datatype Row = Row(requestId: int, status: string)

  datatype View = View(
    role: Option<string>,
    approverId: Field<int>,
    loading: bool,
    filter: string,
    requests: seq<Row>,
    actionLoading: map<int, bool>,
    showModal: bool,
    modal: Option<ModalTarget>,
    form: ModalForm)

  datatype Effect =
    | Fetch(call: ApiCall<Service.Body>)
    | Mutate(requestId: int, outcome: Result<ApiCall<Service.Body>, Service.Error>)
    | Alert(message: string)

  /** A transition: the next view and the effects it starts, in order. */
  datatype Step = Step(view: View, effects: seq<Effect>)

  /** `actionLoading[id]` is truthy. */
  predicate Busy(v: View, id: int) {
    id in v.actionLoading && v.actionLoading[id]
  }

  /** The effects start a mutation call. */
  predicate Mutates(effects: seq<Effect>) {
    exists i :: 0 <= i < |effects| && effects[i].Mutate?
  }

  /** The effects start a re-fetch of the list. */
  predicate Refetches(effects: seq<Effect>) {
    exists i :: 0 <= i < |effects| && effects[i].Fetch?
  }

  // ----- loading the list -----

  /** `getAllRequests(filter || null)`. */
  function ListCall(filter: string): (c: ApiCall<Service.Body>)
    ensures c == Service.GetAllRequests(if filter == "" then None else Some(filter), Null)
    ensures Lookup(c.url.query, "status") == (if IsStatusName(filter) then Some(filter) else None)
    ensures Keys(c.url.query) == (if IsStatusName(filter) then ["status"] else [])
  {
    Service.GetAllRequests(if filter == "" then None else Some(filter), Null)
  }

  /** `fetchRequests`: show the loading screen and request the list; the
      rows, the flags and the modal are left as they are. */
  function StartFetch(v: View): (s: Step)
    ensures IsStaff(v.role) ==> Render(s.view) == LoadingScreen
    ensures s.view.requests == v.requests && s.view.actionLoading == v.actionLoading
    ensures s.view.showModal == v.showModal && s.view.modal == v.modal && s.view.filter == v.filter
    ensures |s.effects| == 1 && s.effects[0].Fetch? && s.effects[0].call.Get?
    ensures Lookup(s.effects[0].call.url.query, "status") == (if IsStatusName(v.filter) then Some(v.filter) else None)
    ensures Keys(s.effects[0].call.url.query) == (if IsStatusName(v.filter) then ["status"] else [])
  {
    var e := [Fetch(ListCall(v.filter))];
    assert e[0].Fetch?;
    Step(v.(loading := true), e)
  }

  /** The first render: staff fetch the list, anybody else fetches nothing. */
  function Mount(role: Option<string>, approverId: Field<int>): (s: Step)
    ensures Refetches(s.effects) <==> IsStaff(role)
    ensures !s.view.showModal && s.view.modal.None? && s.view.actionLoading == map[]
    ensures s.view.loading && s.view.filter == "" && s.view.requests == []
  {
    var v := View(role, approverId, true, "", [], map[], false, None, BlankForm);
    if IsStaff(role) then StartFetch(v) else Step(v, [])
  }

  /** Choosing a status filter re-fetches (for staff). */
  function ChangeFilter(v: View, filter: string): (s: Step)
    ensures s.view.filter == filter
    ensures Refetches(s.effects) <==> IsStaff(v.role)
    ensures IsStaff(v.role) ==> s.effects == [Fetch(ListCall(filter))]
  {
    var v' := v.(filter := filter);
    if IsStaff(v.role) then StartFetch(v') else Step(v', [])
  }

  /** The list arrived: staff see one action cell per new row, computed
      with the flags as they were; nothing else in the view changes. */
  function FetchSucceeded(v: View, rows: seq<Row>): (w: View)
    ensures IsStaff(v.role) ==> Render(w).Table? && Render(w).modalOpen == v.showModal
    ensures IsStaff(v.role) ==> |Render(w).cells| == |rows|
    ensures IsStaff(v.role) ==> forall i :: 0 <= i < |rows| ==> Render(w).cells[i] == ActionCell(v, rows[i])
    ensures w.actionLoading == v.actionLoading && w.showModal == v.showModal && w.modal == v.modal
    ensures w.filter == v.filter && w.form == v.form && w.role == v.role
  {
    v.(requests := rows, loading := false)
  }

  /** The list call failed: staff see the old rows' cells again, and the
      only effect is the alert. */
  function FetchFailed(v: View): (s: Step)
    ensures IsStaff(v.role) ==> Render(s.view) == Table(Cells(v), v.showModal)
    ensures s.view.actionLoading == v.actionLoading && s.view.modal == v.modal && s.view.form == v.form
    ensures s.effects == [Alert("Error loading requests.")] && !Refetches(s.effects)
  {
    Step(v.(loading := false), [Alert("Error loading requests.")])
  }

  // ----- the modal -----

  /** `handleApprove` / `handleReject` / `handleReturn`: open the modal on a
      request; the form is blanked, except that a return starts from today. */
  function OpenModal(v: View, action: Action, requestId: int, today: Day): (w: View)
    ensures w.showModal && w.modal == Some(ModalTarget(action, requestId))
    ensures action != MarkReturned ==> w.form == BlankForm
    ensures action == MarkReturned ==> w.form == ModalForm("", Given(today), "")
    ensures w.actionLoading == v.actionLoading && w.requests == v.requests && w.loading == v.loading
  {
    var form := if action == MarkReturned then ModalForm("", Given(today), "") else BlankForm;
    v.(modal := Some(ModalTarget(action, requestId)), form := form, showModal := true)
  }

  datatype FormChange = SetRemarks(remarks: string) | SetReturnDate(date: Field<Day>) | SetCondition(text: string)

  /** `handleModalFormChange`: one field of the form changes. */
  function EditForm(v: View, change: FormChange): (w: View)
    ensures w == v.(form := w.form)
    ensures change.SetRemarks? ==> w.form == v.form.(remarks := change.remarks)
    ensures change.SetReturnDate? ==> w.form == v.form.(returnDate := change.date)
    ensures change.SetCondition? ==> w.form == v.form.(conditionAfterUse := change.text)
  {
    match change
    case SetRemarks(r) => v.(form := v.form.(remarks := r))
    case SetReturnDate(d) => v.(form := v.form.(returnDate := d))
    case SetCondition(t) => v.(form := v.form.(conditionAfterUse := t))
  }

  /** The close button and Cancel: the table shows the same cells with the
      modal closed; the target, the form and every flag are kept. */
  function CloseModal(v: View): (w: View)
    ensures Render(v).Table? ==> Render(w) == Table(Render(v).cells, false)
    ensures !Render(v).Table? ==> Render(w) == Render(v)
    ensures !w.showModal
    ensures w.actionLoading == v.actionLoading && w.modal == v.modal && w.form == v.form
    ensures w.requests == v.requests && w.loading == v.loading
  {
    v.(showModal := false)
  }

  /** The service call a confirmed action makes with the form it was given,
      the gateway run with receiver `recv`. The component calls the named
      exports (`Service.ExportReceiver`): `approveRequest` and
      `markAsReturned` then fail once past the id guard, while
      `rejectRequest`, which never reads `this`, is unaffected. */
  function MutationCall(v: View, target: ModalTarget, form: ModalForm, today: Day, recv: Receiver)
    : (r: Result<ApiCall<Service.Body>, Service.Error>)
    ensures target.action == Reject ==> r == Service.RejectRequest(Given(target.requestId), Some(form.remarks))
    ensures recv == NoReceiver && r.Success? ==> target.action == Reject
    ensures recv == ServiceClass && target.action == Approve ==>
      r == Service.ApproveRequest(Given(target.requestId), Service.ApprovalData(v.approverId, Some(form.remarks)))
    ensures recv == ServiceClass && target.action == MarkReturned ==>
      r == Service.MarkAsReturned(Given(target.requestId), Service.ReturnData(form.returnDate, Some(form.conditionAfterUse)), today)
  {
    var id := Given(target.requestId);
    match target.action
    case Approve => Service.ApproveRequestVia(recv, id, Service.ApprovalData(v.approverId, Some(form.remarks)))
    case Reject => Service.RejectRequest(id, Some(form.remarks))
    case MarkReturned =>
      Service.MarkAsReturnedVia(recv, id, Service.ReturnData(form.returnDate, Some(form.conditionAfterUse)), today)
  }

  /** `handleModalSubmit` with the form the modal's action reads: the row's
      flag is raised and the mutation started, except that a return without a
      date only alerts and changes nothing. */
  function Submit(v: View, form: ModalForm, today: Day, recv: Receiver): (s: Step)
    ensures v.modal.None? ==> s == Step(v, [])
    ensures v.modal.Some? && v.modal.value.action == MarkReturned && !IsTruthyText(form.returnDate) ==>
      s == Step(v, [Alert("Return date is required")])
    ensures Mutates(s.effects) <==>
      v.modal.Some? && (v.modal.value.action != MarkReturned || IsTruthyText(form.returnDate))
    ensures Mutates(s.effects) ==>
      && s.view == v.(actionLoading := v.actionLoading[v.modal.value.requestId := true])
      && s.effects == [Mutate(v.modal.value.requestId, MutationCall(v, v.modal.value, form, today, recv))]
  {
    if v.modal.None? then Step(v, [])
    else
      var target := v.modal.value;
      if target.action == MarkReturned && !IsTruthyText(form.returnDate) then
        Step(v, [Alert("Return date is required")])
      else
        var w := v.(actionLoading := v.actionLoading[target.requestId := true]);
        var e := Mutate(target.requestId, MutationCall(v, target, form, today, recv));
        assert [e][0].Mutate?;
        Step(w, [e])
  }

  function SuccessMessage(a: Action): string {
    match a
    case Approve => "Request approved successfully!"
    case Reject => "Request rejected successfully!"
    case MarkReturned => "Item marked as returned successfully!"
  }

  function FailureMessage(a: Action): string {
    match a
    case Approve => "Error approving request. Please try again."
    case Reject => "Error rejecting request. Please try again."
    case MarkReturned => "Error marking as returned. Please try again."
  }

  /** The mutation on `target` settled: on success the list is re-fetched
      and the modal closed, on failure the modal stays; either way (`finally`)
      the row's flag drops. */
  function Settle(v: View, target: ModalTarget, ok: bool): (s: Step)
    ensures s.view.actionLoading == v.actionLoading[target.requestId := false]
    ensures ok ==> !s.view.showModal && s.view.loading
    ensures ok ==> s.effects == [Alert(SuccessMessage(target.action)), Fetch(ListCall(v.filter))]
    ensures !ok ==> s.view == v.(actionLoading := v.actionLoading[target.requestId := false])
    ensures !ok ==> s.effects == [Alert(FailureMessage(target.action))]
    ensures Refetches(s.effects) <==> ok
  {
    var clear := v.actionLoading[target.requestId := false];
    if ok then
      var fetch := StartFetch(v);
      var e := [Alert(SuccessMessage(target.action))] + fetch.effects;
      assert e[1].Fetch?;
      Step(fetch.view.(showModal := false, actionLoading := clear), e)
    else
      Step(v.(actionLoading := clear), [Alert(FailureMessage(target.action))])
  }

  /** A submit followed by its settlement leaves the submitted row not busy
      and every other row's flag as it was. */
  lemma SubmitThenSettleRestoresFlags(v: View, form: ModalForm, today: Day, recv: Receiver, ok: bool)
    requires v.modal.Some?
    requires Mutates(Submit(v, form, today, recv).effects)
    ensures var s := Settle(Submit(v, form, today, recv).view, v.modal.value, ok).view;
      && !Busy(s, v.modal.value.requestId)
      && forall k :: k != v.modal.value.requestId ==> Busy(s, k) == Busy(v, k)
  {
  }

  /** A submit raises its own row's flag, which disables the modal's submit
      button, and no other row's flag. */
  lemma SubmitRaisesOnlyItsFlag(v: View, form: ModalForm, today: Day, recv: Receiver)
    requires Mutates(Submit(v, form, today, recv).effects)
    ensures var w := Submit(v, form, today, recv).view;
      && Busy(w, v.modal.value.requestId)
      && SubmitDisabled(w)
      && forall k :: k != v.modal.value.requestId ==> Busy(w, k) == Busy(v, k)
  {
  }

  /** As the component is written, a confirmed approval or return never
      reaches the server and always settles as a failure; only a rejection
      can be sent. */
  lemma AsWrittenOnlyRejectionsAreSent(v: View, form: ModalForm, today: Day)
    requires Mutates(Submit(v, form, today, Service.ExportReceiver).effects)
    ensures var e := Submit(v, form, today, Service.ExportReceiver).effects[0];
      e.outcome.Success? <==> v.modal.value.action == Reject && v.modal.value.requestId != 0
  {
  }

  /** Of all the events, only a submit raises a row's flag and only a
      settlement lowers one: fetching, filtering, the list arriving or
      failing, and opening, editing or closing the modal keep every flag. */
  lemma OnlySubmitAndSettleMoveFlags(
    v: View, filter: string, rows: seq<Row>, action: Action, requestId: int, today: Day, change: FormChange)
    ensures StartFetch(v).view.actionLoading == v.actionLoading
    ensures ChangeFilter(v, filter).view.actionLoading == v.actionLoading
    ensures FetchSucceeded(v, rows).actionLoading == v.actionLoading
    ensures FetchFailed(v).view.actionLoading == v.actionLoading
    ensures OpenModal(v, action, requestId, today).actionLoading == v.actionLoading
    ensures EditForm(v, change).actionLoading == v.actionLoading
    ensures CloseModal(v).actionLoading == v.actionLoading
  {
  }

  // ----- rendering -----

  /** The actions column of one row. */
  datatype Cell = Buttons(actions: seq<Action>, disabled: bool) | NoActionsNote | EmptyCell

  /** The buttons a status offers: Approve and Reject while PENDING, Mark
      Returned once APPROVED. */
  function OfferedActions(status: string): seq<Action> {
    if status == "PENDING" then [Approve, Reject]
    else if status == "APPROVED" then [MarkReturned]
    else []
  }

  function ActionCell(v: View, row: Row): (c: Cell)
    ensures c.Buttons? <==> row.status == "PENDING" || row.status == "APPROVED"
    ensures c.Buttons? ==> c.actions == OfferedActions(row.status) && c.disabled == Busy(v, row.requestId)
    ensures c.NoActionsNote? <==> row.status == "REJECTED" || row.status == "RETURNED"
    ensures c.EmptyCell? <==> !IsStatusName(row.status)
  {
    if row.status == "PENDING" || row.status == "APPROVED" then
      Buttons(OfferedActions(row.status), Busy(v, row.requestId))
    else if row.status == "REJECTED" || row.status == "RETURNED" then NoActionsNote
    else EmptyCell
  }

  /** The buttons offered on a row are exactly the actions the lifecycle
      allows from its status. */
  lemma OfferedActionsFollowLifecycle(status: string, a: Action)
    ensures a in OfferedActions(status) <==> ParseStatus(status).Some? && Next(ParseStatus(status).value, a).Some?
  {
  }

  /** The modal's submit button is disabled while its request is busy
      (an unset target reads `actionLoading['']`, which is undefined). */
  predicate SubmitDisabled(v: View) {
    v.modal.Some? && Busy(v, v.modal.value.requestId)
  }

  /** `getStatusBadge`: the badge class of a status. */
  function StatusBadge(status: string): (cls: string)
    ensures !IsStatusName(status) ==> cls == "badge bg-light"
  {
    if status == "PENDING" then "badge bg-warning text-dark"
    else if status == "APPROVED" then "badge bg-success"
    else if status == "REJECTED" then "badge bg-danger"
    else if status == "RETURNED" then "badge bg-secondary"
    else "badge bg-light"
  }

  /** The four statuses have four different badges, none of them the fallback. */
  lemma StatusBadgesDistinct(s: Status, t: Status)
    ensures s != t ==> StatusBadge(StatusName(s)) != StatusBadge(StatusName(t))
    ensures StatusBadge(StatusName(s)) != "badge bg-light"
  {
  }

  datatype Screen = AccessDenied | LoadingScreen | Table(cells: seq<Cell>, modalOpen: bool)

  /** The actions column, one cell per listed request. */
  function Cells(v: View): (cs: seq<Cell>)
    ensures |cs| == |v.requests|
    ensures forall i :: 0 <= i < |v.requests| ==> cs[i] == ActionCell(v, v.requests[i])
  {
    seq(|v.requests|, i requires 0 <= i < |v.requests| => ActionCell(v, v.requests[i]))
  }

  /** What the view shows: non-staff are denied before anything else. */
  function Render(v: View): (sc: Screen)
    ensures sc.AccessDenied? <==> !IsStaff(v.role)
    ensures sc.LoadingScreen? <==> IsStaff(v.role) && v.loading
    ensures sc.Table? ==> |sc.cells| == |v.requests| && sc.modalOpen == v.showModal
    ensures sc.Table? ==> forall i :: 0 <= i < |v.requests| ==> sc.cells[i] == ActionCell(v, v.requests[i])
  {
    if !IsStaff(v.role) then AccessDenied
    else if v.loading then LoadingScreen
    else Table(Cells(v), v.showModal)
  }
}
