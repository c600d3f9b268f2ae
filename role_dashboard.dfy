/** Which dashboard the home and admin routes show for the signed-in role. */
module RoleDashboard {
  datatype Role = Operator | Admin

  /** The role a session starts with. */
  const DefaultRole := Operator

  datatype Screen = AdminDashboard | Dashboard | OperatorDashboard

  /** `/admin` is always the admin dashboard; `/` depends on the role; anything else is the dashboard. */
  function ChooseDashboard(path: string, role: Role): (s: Screen)
    ensures s == AdminDashboard <==> path == "/admin"
    ensures s == OperatorDashboard <==> path == "/" && role == Operator
    ensures s == Dashboard <==> path != "/admin" && (path != "/" || role == Admin)
  {
    if path == "/admin" then AdminDashboard
    else if path == "/" then
      match role
      case Admin => Dashboard
      case Operator => OperatorDashboard
    else Dashboard
  }

  /** The role matters on the home route only. */
  lemma RoleMattersOnlyAtHome(path: string)
    ensures ChooseDashboard(path, Operator) != ChooseDashboard(path, Admin) <==> path == "/"
  {
  }

  /** A new session on the home route sees the operator dashboard. */
  lemma NewSessionHome()
    ensures ChooseDashboard("/", DefaultRole) == OperatorDashboard
  {
  }
}
