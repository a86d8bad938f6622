/** Who may see which page: the role gate of components/layout/dashboard-layout.tsx,
    the redirect of the home page (app/page.tsx), and the guard the class pages
    (rankings, attendance, schedule) run before they read anything. A session is
    the signed-in user, or `None` when there is none. */
module DashboardGate {
  import opened Common
  import opened Schema

  /** The three roles the application knows. */
  predicate KnownRole(role: string)
  {
    role == "admin" || role == "lecturer" || role == "student"
  }

  /** The dashboard a role is sent to: any role other than admin and lecturer
      is treated as a student. */
  function DashboardOf(role: string): (r: string)
    ensures role == "admin" <==> r == "/admin/dashboard"
    ensures role == "lecturer" <==> r == "/lecturer/dashboard"
    ensures role != "admin" && role != "lecturer" <==> r == "/student/dashboard"
  {
    if role == "admin" then "/admin/dashboard"
    else if role == "lecturer" then "/lecturer/dashboard"
    else "/student/dashboard"
  }

  /** The role whose layout a dashboard page is rendered in. */
  function RoleOfDashboard(path: string): (r: Option<string>)
    ensures r.Some? ==> KnownRole(r.value) && DashboardOf(r.value) == path
  {
    if path == "/admin/dashboard" then Some("admin")
    else if path == "/lecturer/dashboard" then Some("lecturer")
    else if path == "/student/dashboard" then Some("student")
    else None
  }

  /** Every known role's dashboard is rendered in that role's layout. */
  lemma DashboardRoundTrip(role: string)
    requires KnownRole(role)
    ensures RoleOfDashboard(DashboardOf(role)) == Some(role)
  {
  }

  datatype Outcome = Render | Redirect(to: string)

  /** `DashboardLayout` for a page of role `required`: no session goes to the
      login page, a session of another role to that role's own dashboard, and
      only a session of the required role sees the page. */
  function Gate(session: Option<User>, required: string): (r: Outcome)
    ensures r == Render <==> session.Some? && session.value.role == required
    ensures session.None? ==> r == Redirect("/")
    ensures session.Some? && r.Redirect? ==> r.to == DashboardOf(session.value.role) && r.to != "/"
  {
    if session.None? then Redirect("/")
    else if session.value.role != required then Redirect(DashboardOf(session.value.role))
    else Render
  }

  /** The home page: with a session, straight to that session's dashboard. */
  function Home(session: Option<User>): (r: Outcome)
    ensures session.None? <==> r == Render
    ensures session.Some? ==> r == Redirect(DashboardOf(session.value.role))
  {
    if session.Some? then Redirect(DashboardOf(session.value.role)) else Render
  }

  /** A session of a known role turned away by the gate lands on a dashboard
      whose gate lets it through: one redirect settles it. */
  lemma {:induction false} GateSettles(session: Option<User>, required: string)
    requires session.Some? && KnownRole(session.value.role)
    requires Gate(session, required).Redirect?
    ensures RoleOfDashboard(Gate(session, required).to).Some?
    ensures Gate(session, RoleOfDashboard(Gate(session, required).to).value) == Render
  {
    DashboardRoundTrip(session.value.role);
  }

  /** For a role outside the three, the gate of the student dashboard sends it
      back to the student dashboard: the redirect never settles. */
  lemma UnknownRoleLoops(u: User)
    requires !KnownRole(u.role)
    ensures Gate(Some(u), "student") == Redirect("/student/dashboard")
  {
  }

  /** The home page and a gate that turns a session away send it to the same place. */
  lemma GateAgreesWithHome(session: Option<User>, required: string)
    requires session.Some? && Gate(session, required).Redirect?
    ensures Home(session) == Gate(session, required)
  {
  }

  /** What a class page does before computing anything. */
  datatype Access = Away(to: string) | Proceed(classId: string)

  /** The guard of the class pages of role `role`: no session or another role
      goes to "/"; no class (missing or "") goes to the role's dashboard;
      otherwise the page shows the session's class. */
  function ClassPageAccess(session: Option<User>, role: string, dashboard: string): (r: Access)
    ensures r.Proceed? <==> session.Some? && session.value.role == role && Truthy(session.value.classId)
    ensures r.Proceed? ==> session.value.classId == Some(r.classId) && r.classId != ""
    ensures session.None? || session.value.role != role ==> r == Away("/")
    ensures session.Some? && session.value.role == role && !Truthy(session.value.classId) ==> r == Away(dashboard)
  {
    if session.None? || session.value.role != role then Away("/")
    else if !Truthy(session.value.classId) then Away(dashboard)
    else Proceed(session.value.classId.value)
  }

  /** A page the guard lets through is also let through by its layout's gate. */
  lemma ProceedPassesGate(session: Option<User>, role: string, dashboard: string)
    requires ClassPageAccess(session, role, dashboard).Proceed?
    ensures Gate(session, role) == Render
  {
  }
}
