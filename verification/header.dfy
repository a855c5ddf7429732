/** The navigation bar: which links an anonymous user, a student and a
    member of staff see. */
module Header {
  import opened Wrappers
  import opened Domain

  datatype NavLink = EquipmentLink | MyRequestsLink | ManageRequestsLink | RegisterLink | LoginLink | LogoutLink

  /** The path each link leads to. */
  function Target(l: NavLink): string {
    match l
    case EquipmentLink => "/equipment"
    case MyRequestsLink => "/my-requests"
    case ManageRequestsLink => "/admin-requests"
    case RegisterLink => "/register"
    case LoginLink => "/login"
    case LogoutLink => "/login"
  }

  /** The links in page order, for a logged-in flag and the stored role. */
  function NavLinks(isAuth: bool, role: Option<string>): (r: seq<NavLink>)
    ensures EquipmentLink in r <==> isAuth
    ensures MyRequestsLink in r <==> isAuth && IsStudent(role)
    ensures ManageRequestsLink in r <==> isAuth && IsStaff(role)
    ensures RegisterLink in r <==> !isAuth
    ensures LoginLink in r <==> !isAuth
    ensures LogoutLink in r <==> isAuth
  {
    (if isAuth then [EquipmentLink] else [])
    + (if isAuth && IsStudent(role) then [MyRequestsLink] else [])
    + (if isAuth && IsStaff(role) then [ManageRequestsLink] else [])
    + (if !isAuth then [RegisterLink, LoginLink] else [])
    + (if isAuth then [LogoutLink] else [])
  }

  /** No one sees both request links, an anonymous user sees exactly
      Register and Login, and a logged-in user with no known role sees
      Equipment and Logout only. */
  lemma NavLinksByAudience(isAuth: bool, role: Option<string>)
    ensures !(MyRequestsLink in NavLinks(isAuth, role) && ManageRequestsLink in NavLinks(isAuth, role))
    ensures !isAuth ==> NavLinks(isAuth, role) == [RegisterLink, LoginLink]
    ensures isAuth && !IsStudent(role) && !IsStaff(role) ==> NavLinks(isAuth, role) == [EquipmentLink, LogoutLink]
    ensures isAuth ==> (|NavLinks(isAuth, role)| == 3 <==> IsStudent(role) || IsStaff(role))
  {
  }
}
