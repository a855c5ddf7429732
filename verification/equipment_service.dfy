/** The equipment gateway: required-field and quantity validation, the
    sanitiser applied before create and update, and the filter query of
    the catalogue listing. */
module EquipmentService {
  import opened Wrappers
  import opened JsValues
  import opened Text
  import opened Http

  const BasePath := "/api/equipment"

  function ByIdPath(id: int): string { BasePath + "/" + IntToString(id) }

  /** The equipment form as the caller passes it. */
  datatype EquipmentData = EquipmentData(
    name: Option<string>,
    category: Option<string>,
    condition: Option<string>,
    description: Option<string>,
    totalQuantity: Field<int>,
    availableQuantity: Field<int>,
    availability: Option<bool>)

  /** The sanitised payload that is sent; the names stay absent when they were absent. */
  datatype Payload = Payload(
    name: Option<string>,
    category: Option<string>,
    condition: Option<string>,
    description: string,
    totalQuantity: int,
    availableQuantity: int,
    availability: bool)

  /** The listing filters; None stands for an undefined or null filter. */
  datatype Filters = Filters(category: Option<string>, availableOnly: Option<bool>, search: Option<string>)

  const NoFilters := Filters(None, None, None)

  datatype RequiredField = NameField | CategoryField | ConditionField

  function FieldName(f: RequiredField): string {
    match f
    case NameField => "name"
    case CategoryField => "category"
    case ConditionField => "condition"
  }

  function Rank(f: RequiredField): nat {
    match f
    case NameField => 0
    case CategoryField => 1
    case ConditionField => 2
  }

  function FieldValue(d: EquipmentData, f: RequiredField): Option<string> {
    match f
    case NameField => d.name
    case CategoryField => d.category
    case ConditionField => d.condition
  }

  /** Which guard asked for the equipment id. */
  datatype IdUse = ForLookup | ForUpdate | ForDeletion

  datatype Error =
    | MissingFields(fields: seq<RequiredField>)
    | TotalBelowOne
    | AvailableNegative
    | AvailableExceedsTotal
    | EquipmentIdRequired(use: IdUse)
    | SearchTermRequired
    | CategoryRequired
    | ReceiverUndefined(property: string)

  /** The text of the Error the source throws. */
  function Message(e: Error): string {
    match e
    case MissingFields(fs) => "Missing required fields: " + Join(seq(|fs|, i requires 0 <= i < |fs| => FieldName(fs[i])), ", ")
    case TotalBelowOne => "Total quantity must be at least 1"
    case AvailableNegative => "Available quantity cannot be negative"
    case AvailableExceedsTotal => "Available quantity cannot exceed total quantity"
    case EquipmentIdRequired(ForLookup) => "Equipment ID is required"
    case EquipmentIdRequired(ForUpdate) => "Equipment ID is required for update"
    case EquipmentIdRequired(ForDeletion) => "Equipment ID is required for deletion"
    case SearchTermRequired => "Search term is required"
    case CategoryRequired => "Category is required"
    case ReceiverUndefined(p) => UndefinedReadMessage(p)
  }

  /** `!x?.trim()`: absent, empty or only whitespace. */
  predicate Lacks(o: Option<string>) {
    o.None? || IsBlank(o.value)
  }

  // ----- validation -----

  /** The required text fields that are absent or blank, in the fixed order. */
  function MissingRequired(d: EquipmentData): (r: seq<RequiredField>)
    ensures forall f :: f in r <==> Lacks(FieldValue(d, f))
    ensures forall i, j :: 0 <= i < j < |r| ==> Rank(r[i]) < Rank(r[j])
  {
    (if Lacks(d.name) then [NameField] else [])
    + (if Lacks(d.category) then [CategoryField] else [])
    + (if Lacks(d.condition) then [ConditionField] else [])
  }

  /** `data.totalQuantity !== undefined && data.totalQuantity < 1`. */
  predicate TotalTooSmall(d: EquipmentData) {
    !d.totalQuantity.Undefined? && Below(d.totalQuantity, 1)
  }

  /** `data.availableQuantity !== undefined && data.availableQuantity < 0`. */
  predicate AvailableBelowZero(d: EquipmentData) {
    !d.availableQuantity.Undefined? && Below(d.availableQuantity, 0)
  }

  /** Both quantities truthy and the available one larger. */
  predicate AvailableOverTotal(d: EquipmentData) {
    && IsTruthyNumber(d.totalQuantity) && IsTruthyNumber(d.availableQuantity)
    && d.availableQuantity.value > d.totalQuantity.value
  }

  /** `validateEquipmentData`: missing fields, then total, then available,
      then available against total; the first failing check is reported. */
  function ValidateEquipmentData(d: EquipmentData): (r: Outcome<Error>)
    ensures r == Fail(MissingFields(MissingRequired(d))) <==> MissingRequired(d) != []
    ensures r == Fail(TotalBelowOne) <==> MissingRequired(d) == [] && TotalTooSmall(d)
    ensures r == Fail(AvailableNegative) <==>
      MissingRequired(d) == [] && !TotalTooSmall(d) && AvailableBelowZero(d)
    ensures r == Fail(AvailableExceedsTotal) <==>
      MissingRequired(d) == [] && !TotalTooSmall(d) && !AvailableBelowZero(d) && AvailableOverTotal(d)
    ensures r.Fail? ==> r.error.MissingFields? || r.error in {TotalBelowOne, AvailableNegative, AvailableExceedsTotal}
    ensures r.Pass? <==>
      MissingRequired(d) == [] && !TotalTooSmall(d) && !AvailableBelowZero(d) && !AvailableOverTotal(d)
  {
    var missing := MissingRequired(d);
    if missing != [] then Fail(MissingFields(missing))
    else if TotalTooSmall(d) then Fail(TotalBelowOne)
    else if AvailableBelowZero(d) then Fail(AvailableNegative)
    else if AvailableOverTotal(d) then Fail(AvailableExceedsTotal)
    else Pass
  }

  /** With both quantities given as numbers, validation accepts exactly the
      data whose text fields are filled in and whose quantities satisfy
      1 <= total and 0 <= available <= total. */
  lemma AcceptedQuantitiesAreConsistent(d: EquipmentData)
    requires d.totalQuantity.Given? && d.availableQuantity.Given?
    ensures ValidateEquipmentData(d).Pass? <==>
      && MissingRequired(d) == []
      && 1 <= d.totalQuantity.value
      && 0 <= d.availableQuantity.value <= d.totalQuantity.value
  {
  }

  /** An absent total (undefined) skips the total checks, but `null` and ''
      compare as 0 and are rejected as below one. */
  lemma AbsentTotalHandling(d: EquipmentData)
    requires MissingRequired(d) == []
    ensures d.totalQuantity.Null? || d.totalQuantity.Empty? ==> ValidateEquipmentData(d) == Fail(TotalBelowOne)
    ensures d.totalQuantity.Undefined? ==> !TotalTooSmall(d) && !AvailableOverTotal(d)
  {
  }

  // ----- sanitising -----

  /** `parseInt(x, 10) || 1`: a non-zero number is kept, zero and NaN become 1. */
  function OrOne(f: Field<int>): (n: int)
    ensures n != 0
    ensures IsTruthyNumber(f) ==> n == f.value
    ensures !IsTruthyNumber(f) ==> n == 1
  {
    var p := ParseInt(f);
    if p.Given? && p.value != 0 then p.value else 1
  }

  /** `sanitizeEquipmentData`. */
  function SanitizeEquipmentData(d: EquipmentData): (p: Payload)
    ensures p.name.Some? <==> d.name.Some?
    ensures d.name.Some? ==> p.name.value == Trim(d.name.value)
    ensures p.category.Some? <==> d.category.Some?
    ensures d.category.Some? ==> p.category == Some(Trim(d.category.value))
    ensures p.condition.Some? <==> d.condition.Some?
    ensures d.condition.Some? ==> p.condition == Some(Trim(d.condition.value))
    ensures IsTrimmed(p.description)
    ensures p.description == "" <==> Lacks(d.description)
    ensures !Lacks(d.description) ==> p.description == Trim(d.description.value)
    ensures p.totalQuantity == OrOne(d.totalQuantity) && p.availableQuantity == OrOne(d.availableQuantity)
    ensures p.availability <==> d.availability == Some(true)
  {
    Payload(
      if d.name.Some? then Some(Trim(d.name.value)) else None,
      if d.category.Some? then Some(Trim(d.category.value)) else None,
      if d.condition.Some? then Some(Trim(d.condition.value)) else None,
      TrimOr(d.description, ""),
      OrOne(d.totalQuantity),
      OrOne(d.availableQuantity),
      d.availability == Some(true))
  }

  /** Data that passes validation is sent with non-empty names. */
  lemma SanitizedValidDataHasNames(d: EquipmentData)
    requires ValidateEquipmentData(d).Pass?
    ensures var p := SanitizeEquipmentData(d);
      && p.name.Some? && p.name.value != ""
      && p.category.Some? && p.category.value != ""
      && p.condition.Some? && p.condition.value != ""
  {
    var p := SanitizeEquipmentData(d);
    assert MissingRequired(d) == [];
    assert p.name.Some? && p.name.value != "" by {
      assert NameField !in MissingRequired(d);
    }
    assert p.category.Some? && p.category.value != "" by {
      assert CategoryField !in MissingRequired(d);
    }
    assert p.condition.Some? && p.condition.value != "" by {
      assert ConditionField !in MissingRequired(d);
    }
  }

  /** Data that passes validation with both quantities given and the
      available one positive is sent with those quantities unchanged, so
      available <= total carries over. */
  lemma SanitizedValidDataKeepsQuantities(d: EquipmentData)
    requires ValidateEquipmentData(d).Pass?
    requires d.totalQuantity.Given? && d.availableQuantity.Given? && d.availableQuantity.value > 0
    ensures var p := SanitizeEquipmentData(d);
      && p.totalQuantity == d.totalQuantity.value
      && p.availableQuantity == d.availableQuantity.value
      && p.availableQuantity <= p.totalQuantity
  {
    assert !TotalTooSmall(d) && !AvailableOverTotal(d);
    assert OrOne(d.totalQuantity) == d.totalQuantity.value;
    assert OrOne(d.availableQuantity) == d.availableQuantity.value;
  }

  /** An available quantity of 0 passes validation but is sent as 1. */
  lemma ZeroAvailableIsSentAsOne(d: EquipmentData)
    requires ValidateEquipmentData(d).Pass? && d.availableQuantity == Given(0)
    ensures SanitizeEquipmentData(d).availableQuantity == 1
  {
  }

  /** Without a total, any non-negative available quantity passes, and the
      total is sent as 1, so an available quantity of 2 or more is sent
      larger than the total. */
  lemma AbsentTotalCanBeExceeded(d: EquipmentData, a: int)
    requires MissingRequired(d) == []
    requires d.totalQuantity.Undefined? && d.availableQuantity == Given(a) && a >= 2
    ensures ValidateEquipmentData(d).Pass?
    ensures SanitizeEquipmentData(d).totalQuantity == 1
    ensures SanitizeEquipmentData(d).availableQuantity == a
  {
  }

  /** Text fields that are already trimmed and non-zero quantities are sent
      as given; an omitted description and availability become '' and false. */
  lemma TrimmedDataIsSentAsGiven(name: string, category: string, condition: string, total: int, available: int)
    requires IsTrimmed(name) && IsTrimmed(category) && IsTrimmed(condition)
    requires total != 0 && available != 0
    ensures SanitizeEquipmentData(
      EquipmentData(Some(name), Some(category), Some(condition), None, Given(total), Given(available), None))
      == Payload(Some(name), Some(category), Some(condition), "", total, available, false)
  {
    var p := SanitizeEquipmentData(
      EquipmentData(Some(name), Some(category), Some(condition), None, Given(total), Given(available), None));
    assert p.name == Some(name) by { TrimOfTrimmed(name); }
    assert p.category == Some(category) by { TrimOfTrimmed(category); }
    assert p.condition == Some(condition) by { TrimOfTrimmed(condition); }
  }

  /** A projector with availability omitted is sent with an empty description
      and availability false. */
  lemma ProjectorExample()
    ensures SanitizeEquipmentData(
      EquipmentData(Some("Projector"), Some("AV"), Some("Good"), None, Given(5), Given(5), None))
      == Payload(Some("Projector"), Some("AV"), Some("Good"), "", 5, 5, false)
  {
    TrimmedDataIsSentAsGiven("Projector", "AV", "Good", 5, 5);
  }

  // ----- listing -----

  /** `o?.trim()` when that is non-empty, None otherwise. */
  function NonBlankTrim(o: Option<string>): (r: Option<string>)
    ensures r.Some? <==> o.Some? && !IsBlank(o.value)
    ensures r.Some? ==> r.value == Trim(o.value) && r.value != ""
  {
    if o.Some? && !IsBlank(o.value) then Some(Trim(o.value)) else None
  }

  function BoolText(b: bool): string {
    if b then "true" else "false"
  }

  /** `getAllEquipment`: the trimmed category and search when non-blank and
      availableOnly whenever it is defined (so false is sent), in the order
      category, availableOnly, search. */
  function GetAllEquipment(f: Filters): (r: ApiCall<Payload>)
    ensures r.Get? && r.url.path == BasePath
    ensures Lookup(r.url.query, "category") == NonBlankTrim(f.category)
    ensures Lookup(r.url.query, "availableOnly") ==
      (if f.availableOnly.Some? then Some(BoolText(f.availableOnly.value)) else None)
    ensures Lookup(r.url.query, "search") == NonBlankTrim(f.search)
    ensures Keys(r.url.query) ==
      (if NonBlankTrim(f.category).Some? then ["category"] else [])
      + (if f.availableOnly.Some? then ["availableOnly"] else [])
      + (if NonBlankTrim(f.search).Some? then ["search"] else [])
  {
    var c := OptionalParam("category", NonBlankTrim(f.category));
    var a := OptionalParam("availableOnly", if f.availableOnly.Some? then Some(BoolText(f.availableOnly.value)) else None);
    var s := OptionalParam("search", NonBlankTrim(f.search));
    KeysAppend(c, a);
    KeysAppend(c + a, s);
    LookupAppend(c, a, "category");
    LookupAppend(c + a, s, "category");
    LookupAppend(c, a, "availableOnly");
    LookupAppend(c + a, s, "availableOnly");
    LookupAppend(c, a, "search");
    LookupAppend(c + a, s, "search");
    Get(Url(BasePath, c + a + s))
  }

  /** With no filter set the listing URL is the bare path. */
  lemma UnfilteredListingIsBarePath()
    ensures Render(GetAllEquipment(NoFilters).url) == BasePath
  {
  }

  /** `getAvailableEquipment`. */
  function GetAvailableEquipment(): (r: ApiCall<Payload>)
    ensures r.Get? && r.url == Url(BasePath, [("availableOnly", "true")])
  {
    GetAllEquipment(Filters(None, Some(true), None))
  }

  /** `searchEquipment`: a blank term is an error; otherwise the search
      parameter alone carries the trimmed term (trimming twice changes nothing). */
  function SearchEquipment(term: Option<string>): (r: Result<ApiCall<Payload>, Error>)
    ensures r.Failure? <==> Lacks(term)
    ensures r.Failure? ==> r.error == SearchTermRequired
    ensures r.Success? ==> r.value.Get? && r.value.url == Url(BasePath, [("search", Trim(term.value))])
  {
    if Lacks(term) then Failure(SearchTermRequired)
    else
      var t := Trim(term.value);
      var c := GetAllEquipment(Filters(None, None, Some(t)));
      assert NonBlankTrim(Some(t)) == Some(t) by { TrimIdempotent(term.value); }
      SingleParam(c.url.query, "search", t);
      Success(c)
  }

  /** `getEquipmentByCategory`: as `SearchEquipment`, on the category parameter. */
  function GetEquipmentByCategory(category: Option<string>): (r: Result<ApiCall<Payload>, Error>)
    ensures r.Failure? <==> Lacks(category)
    ensures r.Failure? ==> r.error == CategoryRequired
    ensures r.Success? ==> r.value.Get? && r.value.url == Url(BasePath, [("category", Trim(category.value))])
  {
    if Lacks(category) then Failure(CategoryRequired)
    else
      var t := Trim(category.value);
      var c := GetAllEquipment(Filters(Some(t), None, None));
      assert NonBlankTrim(Some(t)) == Some(t) by { TrimIdempotent(category.value); }
      SingleParam(c.url.query, "category", t);
      Success(c)
  }

  // ----- single items -----

  /** `getEquipmentById`: a falsy id is rejected before any call. */
  function GetEquipmentById(id: Field<int>): (r: Result<ApiCall<Payload>, Error>)
    ensures r.Success? <==> IsTruthyNumber(id)
    ensures r.Failure? ==> r.error == EquipmentIdRequired(ForLookup)
    ensures r.Success? ==> r.value == Get(Bare(ByIdPath(id.value)))
  {
    if !IsTruthyNumber(id) then Failure(EquipmentIdRequired(ForLookup))
    else Success(Get(Bare(ByIdPath(id.value))))
  }

  /** `addEquipment`: a POST of the sanitised data, only when it validates. */
  function AddEquipment(d: EquipmentData): (r: Result<ApiCall<Payload>, Error>)
    ensures r.Success? <==> ValidateEquipmentData(d).Pass?
    ensures r.Failure? ==> ValidateEquipmentData(d) == Fail(r.error)
    ensures r.Success? ==> r.value == Post(Bare(BasePath), SanitizeEquipmentData(d))
  {
    match ValidateEquipmentData(d)
    case Fail(e) => Failure(e)
    case Pass => Success(Post(Bare(BasePath), SanitizeEquipmentData(d)))
  }

  /** `updateEquipment`: the id is checked before the data. */
  function UpdateEquipment(id: Field<int>, d: EquipmentData): (r: Result<ApiCall<Payload>, Error>)
    ensures r.Success? <==> IsTruthyNumber(id) && ValidateEquipmentData(d).Pass?
    ensures !IsTruthyNumber(id) ==> r == Failure(EquipmentIdRequired(ForUpdate))
    ensures IsTruthyNumber(id) && ValidateEquipmentData(d).Fail? ==> r == Failure(ValidateEquipmentData(d).error)
    ensures r.Success? ==> r.value == Put(Bare(ByIdPath(id.value)), SanitizeEquipmentData(d))
  {
    if !IsTruthyNumber(id) then Failure(EquipmentIdRequired(ForUpdate))
    else
      :- ValidateEquipmentData(d);
      Success(Put(Bare(ByIdPath(id.value)), SanitizeEquipmentData(d)))
  }

  /** `deleteEquipment`: a falsy id is rejected before any call. */
  function DeleteEquipment(id: Field<int>): (r: Result<ApiCall<Payload>, Error>)
    ensures r.Success? <==> IsTruthyNumber(id)
    ensures r.Failure? ==> r.error == EquipmentIdRequired(ForDeletion)
    ensures r.Success? ==> r.value == Delete(Bare(ByIdPath(id.value)))
  {
    if !IsTruthyNumber(id) then Failure(EquipmentIdRequired(ForDeletion))
    else Success(Delete(Bare(ByIdPath(id.value))))
  }

  // ----- the named exports -----

  /** The receiver the components' calls run with: each named export is the
      bare static method, called as a plain function. */
  const ExportReceiver := NoReceiver

  /** `addEquipment` as run with receiver `recv`: its first statement reads
      `this.validateEquipmentData`. */
  function AddEquipmentVia(recv: Receiver, d: EquipmentData): (r: Result<ApiCall<Payload>, Error>)
    ensures recv == ServiceClass ==> r == AddEquipment(d)
    ensures recv == NoReceiver ==> r == Failure(ReceiverUndefined("validateEquipmentData"))
  {
    if recv == NoReceiver then Failure(ReceiverUndefined("validateEquipmentData"))
    else AddEquipment(d)
  }

  /** `updateEquipment` as run with receiver `recv`: the id guard comes
      before the read of `this.validateEquipmentData`. */
  function UpdateEquipmentVia(recv: Receiver, id: Field<int>, d: EquipmentData): (r: Result<ApiCall<Payload>, Error>)
    ensures recv == ServiceClass ==> r == UpdateEquipment(id, d)
    ensures recv == NoReceiver ==> r.Failure?
    ensures recv == NoReceiver && !IsTruthyNumber(id) ==> r.error == EquipmentIdRequired(ForUpdate)
    ensures recv == NoReceiver && IsTruthyNumber(id) ==> r.error == ReceiverUndefined("validateEquipmentData")
  {
    if !IsTruthyNumber(id) then Failure(EquipmentIdRequired(ForUpdate))
    else if recv == NoReceiver then Failure(ReceiverUndefined("validateEquipmentData"))
    else UpdateEquipment(id, d)
  }

  /** Every item that the class method would add or update is refused
      through the named export. */
  lemma DetachedAddAndUpdateRefuseValidData(id: int, d: EquipmentData)
    requires id != 0 && ValidateEquipmentData(d).Pass?
    ensures AddEquipment(d).Success? && AddEquipmentVia(ExportReceiver, d).Failure?
    ensures UpdateEquipment(Given(id), d).Success? && UpdateEquipmentVia(ExportReceiver, Given(id), d).Failure?
  {
  }
}
