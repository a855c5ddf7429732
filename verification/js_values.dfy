/** The shapes a loosely typed JavaScript field takes in the forms and
    payloads of the client, and the few coercions the source relies on. */
module JsValues {
  import opened Wrappers

  /** A field that should hold a `T`:
      - Undefined, Null: the property is absent or `null`;
      - Empty: the empty string `''` (what an untouched input holds);
      - Invalid: present but not a `T` (a NaN number, a non-date text);
      - Given(v): a genuine value. */
  datatype Field<+T> = Undefined | Null | Empty | Invalid | Given(value: T) {

    /** The "missing" test of the borrow-request validator:
        `x === undefined || x === null || x === ''`. */
    predicate IsMissing() {
      Undefined? || Null? || Empty?
    }
  }

  /** JavaScript truthiness of a numeric field: `0`, NaN, `''`, `null`
      and `undefined` are falsy. */
  predicate IsTruthyNumber(f: Field<int>) {
    f.Given? && f.value != 0
  }

  /** JavaScript truthiness of a field that holds text (a date string, a
      URL parameter): every non-empty string is truthy, parsable or not. */
  predicate IsTruthyText<T>(f: Field<T>) {
    f.Invalid? || f.Given?
  }

  /** `Number(x)` as used by `<` and `>` against a number: `null` and `''`
      convert to 0, `undefined` and unparsable values to NaN (None). */
  function ToNumber(f: Field<int>): (r: Option<int>)
    ensures r.Some? <==> f.Null? || f.Empty? || f.Given?
    ensures f.Given? ==> r == Some(f.value)
  {
    match f
    case Given(n) => Some(n)
    case Null => Some(0)
    case Empty => Some(0)
    case _ => None
  }

  /** `x < k` for a numeric field: false whenever `x` converts to NaN. */
  predicate Below(f: Field<int>, k: int) {
    var n := ToNumber(f); n.Some? && n.value < k
  }

  /** `parseInt(x, 10)` for a numeric field: the number itself, NaN otherwise. */
  function ParseInt(f: Field<int>): (r: Field<int>)
    ensures r.Given? || r.Invalid?
    ensures r.Given? <==> f.Given?
    ensures f.Given? ==> r.value == f.value
  {
    if f.Given? then f else Invalid
  }

  /** `new Date(x)` on a day field, as a day number or None for an
      Invalid Date; `new Date(null)` is the epoch, day 0. */
  function ToDate(f: Field<int>): (r: Option<int>)
    ensures r.Some? <==> f.Given? || f.Null?
    ensures f.Given? ==> r == Some(f.value)
  {
    match f
    case Given(d) => Some(d)
    case Null => Some(0)
    case _ => None
  }

  /** The `this` a static service method runs with: the class when called as
      `Service.method(...)`, undefined when the bare method is called as a
      plain function (module code is strict, so nothing fills it in). */
  datatype Receiver = ServiceClass | NoReceiver

  /** `"Cannot read properties of undefined (reading 'p')"`: the TypeError a
      `this.p` read throws when `this` is undefined. */
  function UndefinedReadMessage(p: string): string {
    "Cannot read properties of undefined (reading '" + p + "')"
  }
}
