/** The equipment dashboard: the filter state and the query it sends, the
    category options, the description cell, the per-role row actions and
    the delete flow. */
module EquipmentList {
  import opened Wrappers
  import opened JsValues
  import opened Text
  import opened Http
  import opened Domain
  import Service = EquipmentService
  import BorrowRequestForm

  /** The three filter controls. */
  datatype ListFilters = ListFilters(category: string, availableOnly: bool, search: string)

  const InitialFilters := ListFilters("", false, "")

  datatype FilterChange = SetCategory(category: string) | SetAvailableOnly(on: bool) | SetSearch(text: string)

  /** `handleFilterChange` / `handleSearchChange`: one control changes, the
      others keep their values. */
  function UpdateFilter(f: ListFilters, c: FilterChange): (g: ListFilters)
    ensures c.SetCategory? ==> g.category == c.category && g.availableOnly == f.availableOnly && g.search == f.search
    ensures c.SetAvailableOnly? ==> g.availableOnly == c.on && g.category == f.category && g.search == f.search
    ensures c.SetSearch? ==> g.search == c.text && g.category == f.category && g.availableOnly == f.availableOnly
  {
    match c
    case SetCategory(x) => f.(category := x)
    case SetAvailableOnly(b) => f.(availableOnly := b)
    case SetSearch(x) => f.(search := x)
  }

  /** `clearFilters`: every control back to its initial value, so the next
      fetch carries no query at all. */
  function ClearFilters(f: ListFilters): (g: ListFilters)
    ensures g == InitialFilters
    ensures Render(FetchCall(g).url) == Service.BasePath
  {
    Service.UnfilteredListingIsBarePath();
    InitialFilters
  }

  /** The `filterParams` object: category when non-empty, availableOnly only
      when checked, search trimmed when it is not blank. */
  function FetchFilters(f: ListFilters): (p: Service.Filters)
    ensures p.category.Some? <==> f.category != ""
    ensures p.category.Some? ==> p.category.value == f.category
    ensures p.availableOnly.Some? <==> f.availableOnly
    ensures p.availableOnly.Some? ==> p.availableOnly.value
    ensures p.search.Some? <==> !IsBlank(f.search)
    ensures p.search.Some? ==> p.search.value == Trim(f.search)
  {
    Service.Filters(
      if f.category != "" then Some(f.category) else None,
      if f.availableOnly then Some(true) else None,
      if !IsBlank(f.search) then Some(Trim(f.search)) else None)
  }

  /** `fetchEquipment`. */
  function FetchCall(f: ListFilters): ApiCall<Service.Payload> {
    Service.GetAllEquipment(FetchFilters(f))
  }

  /** What the dashboard's filters put on the wire: a non-blank category,
      trimmed; `availableOnly=true` when checked and never `false`; a
      non-blank search, trimmed once even though both layers trim. */
  lemma FetchQuery(f: ListFilters)
    ensures FetchCall(f).Get? && FetchCall(f).url.path == Service.BasePath
    ensures Lookup(FetchCall(f).url.query, "category") == if IsBlank(f.category) then None else Some(Trim(f.category))
    ensures Lookup(FetchCall(f).url.query, "availableOnly") == if f.availableOnly then Some("true") else None
    ensures Lookup(FetchCall(f).url.query, "search") == if IsBlank(f.search) then None else Some(Trim(f.search))
  {
    var p := FetchFilters(f);
    assert Service.NonBlankTrim(p.category) == if IsBlank(f.category) then None else Some(Trim(f.category));
    assert Service.NonBlankTrim(p.search) == if IsBlank(f.search) then None else Some(Trim(f.search)) by {
      if !IsBlank(f.search) { TrimmedAgain(f.search); }
    }
  }

  /** Trimming a non-blank text twice sends what trimming once gives. */
  lemma {:induction false} TrimmedAgain(x: string)
    requires !IsBlank(x)
    ensures Service.NonBlankTrim(Some(Trim(x))) == Some(Trim(x))
  {
    TrimIdempotent(x);
    assert !IsBlank(Trim(x));
  }

  /** No two positions of `s` hold the same value. */
  predicate NoDuplicates<T(==)>(s: seq<T>) {
    forall i, j :: 0 <= i < j < |s| ==> s[i] != s[j]
  }

  /** The position of the first occurrence of `x` in `s`. */
  function FirstIndex<T(==)>(s: seq<T>, x: T): (i: nat)
    requires x in s
    ensures i < |s| && s[i] == x
    ensures forall j :: 0 <= j < i ==> s[j] != x
  {
    if s[0] == x then 0 else 1 + FirstIndex(s[1..], x)
  }

  /** Appending an element does not move first occurrences already present. */
  lemma {:induction false} FirstIndexAppend<T>(p: seq<T>, x: T, y: T)
    requires y in p
    ensures FirstIndex(p + [x], y) == FirstIndex(p, y)
  {
    var s := p + [x];
    var k, k' := FirstIndex(s, y), FirstIndex(p, y);
    assert s[k'] == y;
  }

  /** `[...new Set(s)]`: each value once, in the order of its first
      occurrence. */
  function Distinct<T(==)>(s: seq<T>): (r: seq<T>)
    ensures forall i :: 0 <= i < |r| ==> r[i] in s
    ensures forall i :: 0 <= i < |s| ==> s[i] in r
    ensures NoDuplicates(r)
    ensures forall i, j :: 0 <= i < j < |r| ==> FirstIndex(s, r[i]) < FirstIndex(s, r[j])
    decreases |s|
  {
    if s == [] then []
    else
      var p, x := s[..|s| - 1], s[|s| - 1];
      assert s == p + [x];
      var d := Distinct(p);
      forall y | y in d ensures FirstIndex(s, y) == FirstIndex(p, y) {
        FirstIndexAppend(p, x, y);
      }
      if x in d then d
      else
        assert FirstIndex(s, x) == |p| by {
          assert forall j :: 0 <= j < |p| ==> s[j] == p[j];
        }
        d + [x]
  }

  /** Some loaded item has category `c`. */
  predicate HasCategory(items: seq<Equipment>, c: string) {
    exists i :: 0 <= i < |items| && items[i].category == c
  }

  /** `items.map(item => item.category)`. */
  function CategoryColumn(items: seq<Equipment>): (cs: seq<string>)
    ensures |cs| == |items|
    ensures forall i :: 0 <= i < |items| ==> cs[i] == items[i].category
  {
    seq(|items|, i requires 0 <= i < |items| => items[i].category)
  }

  /** The category options: the distinct categories of the loaded items, in
      the order each first occurs. */
  function Categories(items: seq<Equipment>): (r: seq<string>)
    ensures NoDuplicates(r)
    ensures forall i :: 0 <= i < |items| ==> items[i].category in r
    ensures forall j :: 0 <= j < |r| ==> HasCategory(items, r[j])
    ensures forall j :: 0 <= j < |r| ==> r[j] in CategoryColumn(items)
    ensures forall i, j :: 0 <= i < j < |r| ==>
      FirstIndex(CategoryColumn(items), r[i]) < FirstIndex(CategoryColumn(items), r[j])
  {
    var cs := CategoryColumn(items);
    var r := Distinct(cs);
    forall j | 0 <= j < |r| ensures HasCategory(items, r[j]) {
      var i :| 0 <= i < |cs| && cs[i] == r[j];
      assert items[i].category == r[j];
    }
    r
  }

  /** The description cell: `-` when absent or empty, the first fifty
      characters and an ellipsis when longer than fifty, else the text. */
  function DescriptionCell(d: Option<string>): (r: string)
    ensures d.None? || d.value == "" ==> r == "-"
    ensures d.Some? && 0 < |d.value| <= 50 ==> r == d.value
    ensures d.Some? && |d.value| > 50 ==> |r| == 53 && r[..50] == d.value[..50] && r[50..] == "..."
  {
    if d.None? || d.value == "" then "-"
    else if |d.value| > 50 then d.value[..50] + "..."
    else d.value
  }

  /** A shown description is never longer than fifty-three characters and
      always begins with the description's own first characters. */
  lemma {:induction false} DescriptionCellBounded(d: string)
    requires d != ""
    ensures var r := DescriptionCell(Some(d));
      |r| <= 53 && (r == d || (|d| > 50 && r == d[..50] + "..."))
  {
  }

  datatype RowAction = Edit | Remove | RequestItem | NotAvailableNote

  /** `isAdmin || isStudent`: whether the Actions column is rendered. */
  predicate ShowsActions(role: Option<string>) {
    IsStaff(role) || IsStudent(role)
  }

  /** `isAdmin`: whether the Add Equipment button is rendered. */
  predicate ShowsAddButton(role: Option<string>) {
    IsStaff(role)
  }

  /** The contents of a row's Actions cell. */
  function RowActions(role: Option<string>, e: Equipment): (r: seq<RowAction>)
    ensures Edit in r <==> IsStaff(role)
    ensures Remove in r <==> IsStaff(role)
    ensures RequestItem in r <==> IsStudent(role) && e.availability && e.availableQuantity > 0
    ensures NotAvailableNote in r <==> IsStudent(role) && (!e.availability || e.availableQuantity == 0)
    ensures r != [] ==> ShowsActions(role)
  {
    (if IsStaff(role) then [Edit, Remove] else [])
    + (if IsStudent(role) && e.availability && e.availableQuantity > 0 then [RequestItem] else [])
    + (if IsStudent(role) && (!e.availability || e.availableQuantity == 0) then [NotAvailableNote] else [])
  }

  /** A student sees exactly one of Request and Not Available for every item
      with a non-negative available count; an available item with a negative
      count shows neither. Staff never see Request. */
  lemma StudentSeesOneOfRequestOrNote(role: Option<string>, e: Equipment)
    ensures IsStudent(role) && e.availableQuantity >= 0 ==>
      (RequestItem in RowActions(role, e) <==> NotAvailableNote !in RowActions(role, e))
    ensures IsStudent(role) && e.availability && e.availableQuantity < 0 ==>
      RequestItem !in RowActions(role, e) && NotAvailableNote !in RowActions(role, e)
    ensures IsStaff(role) ==> RequestItem !in RowActions(role, e) && NotAvailableNote !in RowActions(role, e)
  {
  }

  /** `handleRequestEquipment`: the borrow form, with the item's id in the
      query. */
  function RequestLink(id: int): (u: Url)
    ensures u.path == "/borrow-request"
    ensures Lookup(u.query, "equipmentId") == Some(IntToString(id))
  {
    Url("/borrow-request", [("equipmentId", IntToString(id))])
  }

  /** Following Request on an item with a non-negative id opens the borrow
      form with that item already selected. */
  lemma RequestLinkPrefillsForm(id: nat, form: BorrowRequestForm.Form)
    ensures BorrowRequestForm.Prefill(form, RequestLink(id).query) ==
      form.(equipmentId := Given(id))
  {
    NatToStringRoundTrip(id);
  }

  datatype ListEffect =
    | FetchList(call: ApiCall<Service.Payload>)
    | DeleteCall(outcome: Result<ApiCall<Service.Payload>, Service.Error>)
    | Alert(message: string)

  /** `handleDelete`: nothing happens unless the user confirms. */
  function HandleDelete(confirmed: bool, id: int): (r: seq<ListEffect>)
    ensures !confirmed <==> r == []
    ensures confirmed ==> r == [DeleteCall(Service.DeleteEquipment(Given(id)))]
    ensures confirmed ==> (r[0].outcome.Success? <==> id != 0)
  {
    if confirmed then [DeleteCall(Service.DeleteEquipment(Given(id)))] else []
  }

  /** The settled delete: success alerts and re-fetches with the current
      filters; a gateway refusal or a server error only alerts. */
  function DeleteSettled(f: ListFilters, outcome: Result<ApiCall<Service.Payload>, Service.Error>, serverOk: bool): (r: seq<ListEffect>)
    ensures outcome.Success? && serverOk ==> r == [Alert("Equipment deleted successfully!"), FetchList(FetchCall(f))]
    ensures !(outcome.Success? && serverOk) ==> r == [Alert("Error deleting equipment. Please try again.")]
    ensures (exists i :: 0 <= i < |r| && r[i].FetchList?) <==> outcome.Success? && serverOk
  {
    if outcome.Success? && serverOk then
      var r := [Alert("Equipment deleted successfully!"), FetchList(FetchCall(f))];
      assert r[1].FetchList?;
      r
    else [Alert("Error deleting equipment. Please try again.")]
  }

  /** The count line above the table. */
  function CountLabel(n: nat): (r: string)
    ensures n == 1 ==> r == "Showing 1 equipment"
    ensures n != 1 ==> r == "Showing " + NatToString(n) + " equipments"
  {
    "Showing " + NatToString(n) + " equipment" + (if n != 1 then "s" else "")
  }
}
