/** The student's borrow-request form: the selectable equipment, the
    prefill from the `equipmentId` URL parameter, and the pre-checks and
    payload shaping of `handleSubmit`. */
module BorrowRequestForm {
  import opened Wrappers
  import opened JsValues
  import opened Http
  import opened Domain
  import Service = BorrowRequestService
  import EquipmentService

  /** The form state; numeric and date fields hold the inputs' text. */
  datatype Form = Form(
    equipmentId: Field<int>,
    quantity: Field<int>,
    fromDate: Field<Day>,
    toDate: Field<Day>,
    reason: string)

  const InitialForm := Form(Empty, Given(1), Empty, Empty, "")

  /** The list behind the select: `getAllEquipment({ availableOnly: true })`,
      which asks for available items only. */
  function EquipmentFetch(): (r: ApiCall<EquipmentService.Payload>)
    ensures r.Get? && r.url == Url(EquipmentService.BasePath, [("availableOnly", "true")])
  {
    EquipmentService.GetAllEquipment(EquipmentService.Filters(None, Some(true), None))
  }

  /** `item.availability && item.availableQuantity > 0`. */
  predicate Selectable(e: Equipment) {
    e.availability && e.availableQuantity > 0
  }

  /** The equipment offered in the select: exactly the selectable items,
      each as many times as it was fetched. */
  function AvailableEquipment(items: seq<Equipment>): (r: seq<Equipment>)
    ensures forall i :: 0 <= i < |r| ==> Selectable(r[i])
    ensures forall e {:trigger multiset(r)[e]} :: multiset(r)[e] == if Selectable(e) then multiset(items)[e] else 0
    decreases |items|
  {
    if items == [] then []
    else
      var rest := AvailableEquipment(items[1..]);
      assert items == [items[0]] + items[1..];
      if Selectable(items[0]) then [items[0]] + rest else rest
  }

  /** `.filter` keeps the fetched order: filtering a concatenation filters
      each part in place, and a single item is kept exactly when it is
      selectable. */
  lemma {:induction false} AvailableEquipmentKeepsOrder(xs: seq<Equipment>, ys: seq<Equipment>)
    ensures AvailableEquipment(xs + ys) == AvailableEquipment(xs) + AvailableEquipment(ys)
    decreases |xs|
  {
    if xs == [] {
      assert xs + ys == ys;
    } else {
      AvailableEquipmentKeepsOrder(xs[1..], ys);
      KeepsOrderStep(xs[0], xs[1..], ys);
      assert xs == [xs[0]] + xs[1..];
    }
  }

  /** The inductive step of `AvailableEquipmentKeepsOrder`: putting one item
      in front of a list the property holds for keeps it. */
  lemma {:induction false} KeepsOrderStep(x: Equipment, xs: seq<Equipment>, ys: seq<Equipment>)
    requires AvailableEquipment(xs + ys) == AvailableEquipment(xs) + AvailableEquipment(ys)
    ensures AvailableEquipment([x] + xs + ys) == AvailableEquipment([x] + xs) + AvailableEquipment(ys)
  {
    assert [x] + xs + ys == [x] + (xs + ys);
    AvailableEquipmentCons(x, xs + ys);
    AvailableEquipmentCons(x, xs);
    var h := if Selectable(x) then [x] else [];
    assert h + (AvailableEquipment(xs) + AvailableEquipment(ys))
      == (h + AvailableEquipment(xs)) + AvailableEquipment(ys);
  }

  /** One step of the filter: the head is kept iff it is selectable. */
  lemma {:induction false} AvailableEquipmentCons(x: Equipment, rest: seq<Equipment>)
    ensures AvailableEquipment([x] + rest) == (if Selectable(x) then [x] else []) + AvailableEquipment(rest)
  {
    var s := [x] + rest;
    assert s[0] == x && s[1..] == rest;
  }

  /** A single fetched item is offered exactly when it is selectable. */
  lemma {:induction false} AvailableEquipmentSingle(e: Equipment)
    ensures AvailableEquipment([e]) == if Selectable(e) then [e] else []
  {
    assert [e][1..] == [];
  }

  /** Membership form of the filter: an item is offered iff it was fetched
      and is selectable. */
  lemma {:induction false} AvailableEquipmentMembers(items: seq<Equipment>, e: Equipment)
    ensures e in AvailableEquipment(items) <==> e in items && Selectable(e)
  {
    assert e in AvailableEquipment(items) <==> multiset(AvailableEquipment(items))[e] > 0;
    assert e in items <==> multiset(items)[e] > 0;
  }

  /** `urlParams.get('equipmentId')` as the form holds it: absent is null,
      the empty text is '', a run of digits is that number, anything else is
      not a number. */
  function EquipmentParam(q: seq<Param>): (f: Field<int>)
    ensures f.Null? <==> Lookup(q, "equipmentId").None?
    ensures f.Empty? <==> Lookup(q, "equipmentId") == Some("")
    ensures f.Given? <==> Lookup(q, "equipmentId").Some? && Text.IsDigits(Lookup(q, "equipmentId").value)
    ensures f.Given? ==> f.value == Text.DigitsValue(Lookup(q, "equipmentId").value) as int
    ensures f.Invalid? <==>
      Lookup(q, "equipmentId").Some? && Lookup(q, "equipmentId").value != "" && !Text.IsDigits(Lookup(q, "equipmentId").value)
    ensures !f.Undefined?
  {
    match Lookup(q, "equipmentId")
    case None => Null
    case Some(s) =>
      if s == "" then Empty
      else if Text.IsDigits(s) then Given(Text.DigitsValue(s) as int)
      else Invalid
  }

  /** The `equipmentId` URL parameter of query `q`, when present and
      non-empty, prefills the equipment and nothing else: a run of digits
      selects that number, any other text is held as a non-number. */
  function Prefill(form: Form, q: seq<Param>): (f: Form)
    ensures f == form.(equipmentId := f.equipmentId)
    ensures Lookup(q, "equipmentId").None? || Lookup(q, "equipmentId") == Some("") ==> f == form
    ensures Lookup(q, "equipmentId").Some? && Text.IsDigits(Lookup(q, "equipmentId").value) ==>
      f.equipmentId == Given(Text.DigitsValue(Lookup(q, "equipmentId").value) as int)
    ensures var p := Lookup(q, "equipmentId");
      p.Some? && p.value != "" && !Text.IsDigits(p.value) ==> f.equipmentId == Invalid
  {
    var param := EquipmentParam(q);
    if IsTruthyText(param) then form.(equipmentId := param) else form
  }

  /** Index `i` holds the first item whose id is `id`. */
  predicate FirstMatchAt(items: seq<Equipment>, id: int, i: int) {
    && 0 <= i < |items|
    && items[i].equipmentId == id
    && forall j :: 0 <= j < i ==> items[j].equipmentId != id
  }

  /** `equipment.find(item => item.equipmentId === id)`: the first item with
      that id; a NaN id matches nothing. */
  function FindEquipment(items: seq<Equipment>, id: Field<int>): (r: Option<Equipment>)
    ensures r.None? <==> !id.Given? || forall i :: 0 <= i < |items| ==> items[i].equipmentId != id.value
    ensures r.Some? ==> r.value.equipmentId == id.value
    ensures r.Some? ==> exists i :: FirstMatchAt(items, id.value, i) && items[i] == r.value
    decreases |items|
  {
    if !id.Given? || items == [] then None
    else if items[0].equipmentId == id.value then Some(items[0])
    else
      var r := FindEquipment(items[1..], id);
      if r.Some? then
        var i :| FirstMatchAt(items[1..], id.value, i) && items[1..][i] == r.value;
        assert items[i + 1] == r.value;
        assert FirstMatchAt(items, id.value, i + 1) by {
          forall j | 0 < j < i + 1 ensures items[j].equipmentId != id.value {
            assert items[j] == items[1..][j - 1];
          }
        }
        r
      else
        assert forall i :: 0 < i < |items| ==> items[i] == items[1..][i - 1];
        r
  }

  datatype SubmitError = FromDateInPast | ToDateNotAfterFrom | ExceedsAvailable(available: int)

  function Message(e: SubmitError): string {
    match e
    case FromDateInPast => "From date cannot be in the past"
    case ToDateNotAfterFrom => "To date must be after from date"
    case ExceedsAvailable(n) => "Only " + Text.IntToString(n) + " items available"
  }

  /** `new Date(form.fromDate) < today`. */
  predicate StartsBefore(form: Form, today: Day) {
    var f := ToDate(form.fromDate); f.Some? && f.value < today
  }

  /** `new Date(form.toDate) <= new Date(form.fromDate)`. */
  predicate EndsNoLaterThanStart(form: Form) {
    var f, t := ToDate(form.fromDate), ToDate(form.toDate);
    f.Some? && t.Some? && t.value <= f.value
  }

  /** The selected item, when it is in the loaded list. */
  function Selected(form: Form, items: seq<Equipment>): Option<Equipment> {
    FindEquipment(items, ParseInt(form.equipmentId))
  }

  /** `selectedEquipment && form.quantity > selectedEquipment.availableQuantity`. */
  predicate OverAvailable(form: Form, items: seq<Equipment>) {
    var sel := Selected(form, items);
    var q := ToNumber(form.quantity);
    sel.Some? && q.Some? && q.value > sel.value.availableQuantity
  }

  /** The data handed to `createBorrowRequest`: ids and quantities through
      `parseInt`, dates and reason unchanged. */
  function RequestData(form: Form): (d: Service.RequestData)
    ensures d.fromDate == form.fromDate && d.toDate == form.toDate && d.reason == Some(form.reason)
    ensures d.equipmentId.Given? <==> form.equipmentId.Given?
    ensures d.equipmentId.Given? ==> d.equipmentId == form.equipmentId
    ensures d.quantity.Given? <==> form.quantity.Given?
    ensures d.quantity.Given? ==> d.quantity == form.quantity
    ensures !d.equipmentId.IsMissing() && !d.quantity.IsMissing()
  {
    Service.RequestData(ParseInt(form.equipmentId), ParseInt(form.quantity), form.fromDate, form.toDate, Some(form.reason))
  }

  /** A submit either stops at a pre-check (no call, `loading` stays false)
      or sets `loading` and hands the data to the gateway. */
  datatype Submission = Blocked(error: SubmitError) | Submitted(data: Service.RequestData, call: Result<ApiCall<Service.Body>, Service.Error>)

  /** `handleSubmit`: the start date, the end date and the quantity are
      checked in that order before any call; the data then goes to
      `createBorrowRequest` run with receiver `recv` (the component calls the
      named export, `Service.ExportReceiver`). */
  function HandleSubmit(form: Form, items: seq<Equipment>, today: Day, recv: Receiver): (s: Submission)
    ensures s == Blocked(FromDateInPast) <==> StartsBefore(form, today)
    ensures s == Blocked(ToDateNotAfterFrom) <==> !StartsBefore(form, today) && EndsNoLaterThanStart(form)
    ensures s.Blocked? && s.error.ExceedsAvailable? <==>
      !StartsBefore(form, today) && !EndsNoLaterThanStart(form) && OverAvailable(form, items)
    ensures s.Blocked? && s.error.ExceedsAvailable? ==> s.error.available == Selected(form, items).value.availableQuantity
    ensures s.Submitted? ==> s.data == RequestData(form) && s.call == Service.CreateBorrowRequestVia(recv, RequestData(form), today)
  {
    if StartsBefore(form, today) then Blocked(FromDateInPast)
    else if EndsNoLaterThanStart(form) then Blocked(ToDateNotAfterFrom)
    else if OverAvailable(form, items) then Blocked(ExceedsAvailable(Selected(form, items).value.availableQuantity))
    else Submitted(RequestData(form), Service.CreateBorrowRequestVia(recv, RequestData(form), today))
  }

  /** For a form filled in with genuine values and the class method as the
      receiver, a request reaches the server exactly when it starts no
      earlier than today, ends after it starts, asks for at least one item
      and, if the item is in the list, for no more than are available. */
  lemma {:induction false} SubmittedIffWellFormed(form: Form, items: seq<Equipment>, today: Day)
    requires form.equipmentId.Given? && form.quantity.Given? && form.fromDate.Given? && form.toDate.Given?
    ensures var s := HandleSubmit(form, items, today, ServiceClass);
      s.Submitted? && s.call.Success? <==>
        && form.fromDate.value >= today
        && form.toDate.value > form.fromDate.value
        && form.quantity.value >= 1
        && (forall e :: Selected(form, items) == Some(e) ==> form.quantity.value <= e.availableQuantity)
  {
    Service.ValidRequestIffWellFormed(RequestData(form), today);
  }

  /** An id missing from the loaded list is not checked against any
      availability: only the gateway's checks apply. */
  lemma {:induction false} UnknownEquipmentSkipsQuantityCheck(form: Form, items: seq<Equipment>, today: Day)
    requires form.equipmentId.Given?
    requires forall i :: 0 <= i < |items| ==> items[i].equipmentId != form.equipmentId.value
    ensures !OverAvailable(form, items)
    ensures !StartsBefore(form, today) && !EndsNoLaterThanStart(form) ==> HandleSubmit(form, items, today, ServiceClass).Submitted?
  {
  }

  /** As the component is written, no request ever reaches the server: a
      form that passes the pre-checks is handed to the named export, which
      fails at its first read of `this`. */
  lemma {:induction false} AsWrittenNoRequestIsSent(form: Form, items: seq<Equipment>, today: Day)
    ensures var s := HandleSubmit(form, items, today, Service.ExportReceiver);
      s.Submitted? ==> s.call == Failure(Service.ReceiverUndefined("validateRequestData"))
    ensures var s := HandleSubmit(form, items, today, Service.ExportReceiver);
      s.Submitted? <==> HandleSubmit(form, items, today, ServiceClass).Submitted?
  {
  }

  /** Submitting the untouched form passes the pre-checks (an empty date is
      an Invalid Date, which compares false). The class method then reports
      both dates missing (the NaN equipment id is not "missing"); the named
      export the component calls fails before validating. */
  lemma {:induction false} UntouchedFormIsRejectedByGateway(items: seq<Equipment>, today: Day)
    ensures HandleSubmit(InitialForm, items, today, ServiceClass) ==
      Submitted(RequestData(InitialForm),
        Failure(Service.MissingFields([Service.FromDateField, Service.ToDateField])))
    ensures HandleSubmit(InitialForm, items, today, Service.ExportReceiver) ==
      Submitted(RequestData(InitialForm), Failure(Service.ReceiverUndefined("validateRequestData")))
  {
    var d := RequestData(InitialForm);
    assert Service.MissingRequired(d) == [Service.FromDateField, Service.ToDateField];
  }

  /* The browser's constraint validation. The form has no `noValidate`, so a
     submit only reaches `handleSubmit` when every control satisfies its
     `required`, `min` and `max` attributes. */

  /** `max` of the quantity input: the selected item's availability, or 1. */
  function QuantityMax(form: Form, items: seq<Equipment>): int {
    var sel := Selected(form, items);
    if sel.Some? then sel.value.availableQuantity else 1
  }

  /** `min` of the end-date input: `form.fromDate || today`. */
  function ToDateMin(form: Form, today: Day): Day {
    if form.fromDate.Given? then form.fromDate.value else today
  }

  /** Every control is valid: the select shows a listed item (an id with no
      option leaves it on the empty first option, which `required` rejects),
      the quantity lies within `min` and `max`, and both dates are filled in
      and no earlier than their `min`. */
  predicate ConstraintsHold(form: Form, items: seq<Equipment>, today: Day) {
    && Selected(form, items).Some?
    && form.quantity.Given? && 1 <= form.quantity.value <= QuantityMax(form, items)
    && form.fromDate.Given? && form.fromDate.value >= today
    && form.toDate.Given? && form.toDate.value >= ToDateMin(form, today)
  }

  /** Pressing the submit button: the browser blocks an invalid form (None)
      and otherwise runs `handleSubmit`. */
  function SubmitEvent(form: Form, items: seq<Equipment>, today: Day, recv: Receiver): (r: Option<Submission>)
    ensures r.Some? <==> ConstraintsHold(form, items, today)
    ensures r.Some? ==> r.value == HandleSubmit(form, items, today, recv)
    ensures r.Some? ==> form.equipmentId.Given? && form.quantity.Given? && form.fromDate.Given? && form.toDate.Given?
  {
    if ConstraintsHold(form, items, today) then Some(HandleSubmit(form, items, today, recv)) else None
  }

  /** Past the browser, the only pre-check of `handleSubmit` that can still
      stop the request is an end date equal to the start. */
  lemma {:induction false} PastBrowserOnlyEqualDatesBlock(form: Form, items: seq<Equipment>, today: Day, recv: Receiver)
    requires ConstraintsHold(form, items, today)
    ensures var s := HandleSubmit(form, items, today, recv);
      s.Blocked? <==> form.toDate == form.fromDate
    ensures var s := HandleSubmit(form, items, today, recv);
      s.Blocked? ==> s.error == ToDateNotAfterFrom
  {
    var sel := Selected(form, items);
    assert ToNumber(form.quantity) == Some(form.quantity.value);
    assert form.quantity.value <= sel.value.availableQuantity;
    assert !OverAvailable(form, items);
    assert ToDateMin(form, today) == form.fromDate.value;
    var s := HandleSubmit(form, items, today, recv);
    if form.toDate == form.fromDate {
      assert EndsNoLaterThanStart(form);
      assert s == Blocked(ToDateNotAfterFrom);
    } else {
      assert form.toDate.value != form.fromDate.value;
      assert ToDate(form.toDate).value > ToDate(form.fromDate).value;
      assert !EndsNoLaterThanStart(form);
      assert !s.Blocked?;
    }
  }

  /** With the class method as the receiver, pressing submit sends a request
      exactly when a listed item is selected, between one and its available
      quantity is asked for, and the loan starts no earlier than today and
      ends after it starts. */
  lemma {:induction false} SubmitEventSendsIffWellFormed(form: Form, items: seq<Equipment>, today: Day)
    ensures var r := SubmitEvent(form, items, today, ServiceClass);
      r.Some? && r.value.Submitted? && r.value.call.Success? <==>
        && Selected(form, items).Some?
        && form.quantity.Given? && 1 <= form.quantity.value <= Selected(form, items).value.availableQuantity
        && form.fromDate.Given? && form.toDate.Given?
        && today <= form.fromDate.value < form.toDate.value
  {
    if ConstraintsHold(form, items, today) {
      SubmittedIffWellFormed(form, items, today);
    }
  }

  /** The untouched form never reaches `handleSubmit`: the select still
      shows its empty option and both dates are empty. */
  lemma {:induction false} UntouchedFormIsBlockedByBrowser(items: seq<Equipment>, today: Day, recv: Receiver)
    ensures SubmitEvent(InitialForm, items, today, recv) == None
  {
  }

  /** An id with no option in the select (say, a stale `equipmentId` URL
      parameter) is stopped by the browser, so the missing quantity check of
      `handleSubmit` for such ids never matters. */
  lemma {:induction false} UnlistedEquipmentIsBlockedByBrowser(form: Form, items: seq<Equipment>, today: Day, recv: Receiver)
    requires forall i :: 0 <= i < |items| ==> !form.equipmentId.Given? || items[i].equipmentId != form.equipmentId.value
    ensures SubmitEvent(form, items, today, recv) == None
  {
  }

  /** Asking for more than the selected item's available quantity is
      stopped by the quantity input's `max` before `handleSubmit` runs. */
  lemma {:induction false} OverAvailableIsBlockedByBrowser(form: Form, items: seq<Equipment>, today: Day, recv: Receiver)
    requires OverAvailable(form, items)
    ensures SubmitEvent(form, items, today, recv) == None
  {
  }
}
