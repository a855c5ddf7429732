/** The entities the views and gateways share: calendar days, the
    borrow-request lifecycle, user roles and an equipment row. */
module Domain {
  import opened Wrappers

  /** A calendar date as a day number (days since 1970-01-01). */
  type Day = int

  datatype Status = Pending | Approved | Rejected | Returned

  /** The wire name of a status (the `REQUEST_STATUS` constants). */
  function StatusName(s: Status): string {
    match s
    case Pending => "PENDING"
    case Approved => "APPROVED"
    case Rejected => "REJECTED"
    case Returned => "RETURNED"
  }

  /** The status a wire name denotes, if it is one of the four. */
  function ParseStatus(name: string): (r: Option<Status>)
    ensures r.Some? ==> StatusName(r.value) == name
    ensures r.None? ==> forall s :: StatusName(s) != name
  {
    if name == "PENDING" then Some(Pending)
    else if name == "APPROVED" then Some(Approved)
    else if name == "REJECTED" then Some(Rejected)
    else if name == "RETURNED" then Some(Returned)
    else None
  }

  /** `Object.values(REQUEST_STATUS).includes(name)`. */
  predicate IsStatusName(name: string) {
    ParseStatus(name).Some?
  }

  /** Wire names and statuses are in one-to-one correspondence. */
  lemma {:induction false} StatusNameRoundTrip(s: Status, name: string)
    ensures ParseStatus(StatusName(s)) == Some(s)
    ensures IsStatusName(name) <==> exists t :: StatusName(t) == name
  {
    if IsStatusName(name) {
      assert StatusName(ParseStatus(name).value) == name;
    }
  }

  /** The three staff actions on a borrow request. */
  datatype Action = Approve | Reject | MarkReturned

  /** The lifecycle the server enforces: PENDING is approved or rejected,
      APPROVED is marked returned; REJECTED and RETURNED are terminal. */
  function Next(s: Status, a: Action): (r: Option<Status>)
    ensures r.Some? ==> r.value != s && r.value != Pending
    ensures s == Rejected || s == Returned ==> r.None?
  {
    match (s, a)
    case (Pending, Approve) => Some(Approved)
    case (Pending, Reject) => Some(Rejected)
    case (Approved, MarkReturned) => Some(Returned)
    case _ => None
  }

  /** `role === 'TEACHER' || role === 'ADMIN'`, on the stored role (None when unset). */
  predicate IsStaff(role: Option<string>) {
    role == Some("TEACHER") || role == Some("ADMIN")
  }

  /** `role === 'STUDENT'`. */
  predicate IsStudent(role: Option<string>) {
    role == Some("STUDENT")
  }

  /** An equipment row as the server returns it. */
  datatype Equipment = Equipment(
    equipmentId: int,
    name: string,
    category: string,
    condition: string,
    description: Option<string>,
    totalQuantity: int,
    availableQuantity: int,
    availability: bool)
}
