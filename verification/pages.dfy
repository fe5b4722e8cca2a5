/** The server-rendered dashboard pages: the role-based dashboard, the
    parent's children page and the tutor's "add progress" page. Each either
    redirects or renders a view. */
module Pages {
  import opened Common
  import opened Strings
  import opened Records
  import ProgressApi

  datatype Page<V> = Redirect(target: string) | Render(view: V)

  const SignIn := "/sign-in"
  const DashboardPath := "/dashboard"

  // ---------------------------------------------------------------------
  // Dashboard

  /** The role panel the dashboard embeds. */
  datatype Panel = StudentPanel | TutorPanel | ParentPanel | AdminPanel

  datatype DashboardView = DashboardView(title: string, panel: Option<Panel>)

  function PanelFor(role: string): (p: Option<Panel>)
    ensures p.Some? <==> role in {"student", "tutor", "parent", "admin"}
  {
    if role == "student" then Some(StudentPanel)
    else if role == "tutor" then Some(TutorPanel)
    else if role == "parent" then Some(ParentPanel)
    else if role == "admin" then Some(AdminPanel)
    else None
  }

  /** `PanelFor` is one-to-one on the roles it knows. */
  lemma PanelForInjective(a: string, b: string)
    requires PanelFor(a).Some? && PanelFor(a) == PanelFor(b)
    ensures a == b
  {
  }

  function Dashboard(caller: Option<Caller>): (r: Page<DashboardView>)
    ensures caller.None? <==> r == Redirect(SignIn)
    ensures r.Render? ==>
      var role := EffectiveRole(caller.value);
      && r.view.panel == PanelFor(role)
      && |r.view.title| == |role| + 10
      && r.view.title[0] == ToUpperChar(role[0])
      && r.view.title[1..|role|] == role[1..]
      && r.view.title[|role|..] == " Dashboard"
  {
    if caller.None? then Redirect(SignIn)
    else
      var role := EffectiveRole(caller.value);
      Render(DashboardView(Capitalize(role) + " Dashboard", PanelFor(role)))
  }

  /** A caller without a role gets the student dashboard. */
  lemma MissingRoleGetsStudentDashboard(id: string)
    ensures Dashboard(Some(Caller(id, None))) == Render(DashboardView("Student Dashboard", Some(StudentPanel)))
  {
    assert ToUpperChar('s') == 'S';
    assert Capitalize("student") == "Student";
    assert EffectiveRole(Caller(id, None)) == "student";
    assert "Student" + " Dashboard" == "Student Dashboard";
  }

  /** An unknown role still gets a title, but no panel. */
  lemma UnknownRoleGetsNoPanel(id: string)
    ensures Dashboard(Some(Caller(id, Some("teacher")))) == Render(DashboardView("Teacher Dashboard", None))
  {
    assert ToUpperChar('t') == 'T';
    assert Capitalize("teacher") == "Teacher";
    assert EffectiveRole(Caller(id, Some("teacher"))) == "teacher";
    assert "Teacher" + " Dashboard" == "Teacher Dashboard";
  }

  // ---------------------------------------------------------------------
  // Children page

  /** Renders the children list for the parent's own id. */
  function ChildrenPage(caller: Option<Caller>): (r: Page<string>)
    ensures caller.None? ==> r == Redirect(SignIn)
    ensures r.Render? <==> caller.Some? && EffectiveRole(caller.value) == "parent"
    ensures r.Render? ==> r.view == caller.value.id
    ensures caller.Some? && !r.Render? ==> r == Redirect(DashboardPath)
  {
    if caller.None? then Redirect(SignIn)
    else if EffectiveRole(caller.value) != "parent" then Redirect(DashboardPath)
    else Render(caller.value.id)
  }

  // ---------------------------------------------------------------------
  // Add-progress page

  datatype AddProgressView = AddProgressView(heading: string, studentId: Option<string>)

  const GenericHeading := "Add Progress Record"

  /** `.eq("id", id).single()`: the row only when exactly one row matches. */
  function SingleUser(users: seq<UserRow>, id: string): (r: Option<UserRow>)
    ensures r.Some? ==> r.value in users && r.value.id == id
    ensures (forall u :: u in users ==> u.id != id) ==> r.None?
    ensures (exists i, j :: 0 <= i < j < |users| && users[i].id == id && users[j].id == id) ==> r.None?
  {
    var matches := Filter(users, (u: UserRow) => u.id == id);
    DuplicateIdMatchesTwice(users, id);
    if |matches| == 1 then Some(matches[0]) else None
  }

  lemma DuplicateIdMatchesTwice(users: seq<UserRow>, id: string)
    ensures (exists i, j :: 0 <= i < j < |users| && users[i].id == id && users[j].id == id)
      ==> |Filter(users, (u: UserRow) => u.id == id)| >= 2
  {
    if exists i, j :: 0 <= i < j < |users| && users[i].id == id && users[j].id == id {
      var i, j :| 0 <= i < j < |users| && users[i].id == id && users[j].id == id;
      FilterKeepsTwo(users, (u: UserRow) => u.id == id, i, j);
    }
  }

  /** `sessionsQueryFailed`: the tutor's session lookup returned an error. */
  function AddProgressPage(caller: Option<Caller>, studentId: Option<string>, snap: Snapshot, sessionsQueryFailed: bool): (r: Page<AddProgressView>)
    ensures caller.None? ==> r == Redirect(SignIn)
    ensures caller.Some? && !r.Render? ==> r == Redirect(DashboardPath)
    ensures r.Render? ==> EffectiveRole(caller.value) in {"tutor", "admin"}
    ensures r.Render? && EffectiveRole(caller.value) == "tutor" && Truthy(studentId) ==>
      !sessionsQueryFailed && HaveSharedSession(snap.sessions, caller.value.id, studentId.value)
    ensures caller.Some? && EffectiveRole(caller.value) == "admin" ==> r.Render?
    ensures caller.Some? && EffectiveRole(caller.value) == "tutor"
      && (!Truthy(studentId) || (!sessionsQueryFailed && HaveSharedSession(snap.sessions, caller.value.id, studentId.value)))
      ==> r.Render?
    ensures r.Render? ==> r.view.studentId == studentId
    ensures r.Render? && (!Truthy(studentId) || SingleUser(snap.users, studentId.value).None?) ==>
      r.view.heading == GenericHeading
    ensures (r.Render? && Truthy(studentId) && SingleUser(snap.users, studentId.value).Some?
             && PreferredName(SingleUser(snap.users, studentId.value).value) != "") ==>
      r.view.heading == "Add Progress for " + PreferredName(SingleUser(snap.users, studentId.value).value)
  {
    if caller.None? then Redirect(SignIn)
    else
      var c := caller.value;
      var role := EffectiveRole(c);
      if role != "tutor" && role != "admin" then Redirect(DashboardPath)
      else if Truthy(studentId) && role == "tutor"
        && (sessionsQueryFailed || !HaveSharedSession(snap.sessions, c.id, studentId.value)) then
        Redirect(DashboardPath)
      else
        var name := if Truthy(studentId) && SingleUser(snap.users, studentId.value).Some?
          then PreferredName(SingleUser(snap.users, studentId.value).value) else "";
        Render(AddProgressView(if name != "" then "Add Progress for " + name else GenericHeading, studentId))
  }

  /** A student or parent is sent back to the dashboard whatever it asks for. */
  lemma OnlyTutorsAndAdminsAddProgress(c: Caller, studentId: Option<string>, snap: Snapshot, failed: bool)
    requires EffectiveRole(c) in {"student", "parent"}
    ensures AddProgressPage(Some(c), studentId, snap, failed) == Redirect(DashboardPath)
  {
  }

  /** A tutor or admin may open the add-progress page for a student exactly
      when the progress route would show that student's report to it. */
  lemma AddProgressAgreesWithProgressRoute(c: Caller, studentId: string, snap: Snapshot)
    requires EffectiveRole(c) in {"tutor", "admin"} && studentId != ""
    ensures AddProgressPage(Some(c), Some(studentId), snap, false).Render?
        <==> ProgressApi.GetProgress(Some(c), ProgressApi.ProgressQuery(Some(studentId), None, None), snap).Ok?
  {
  }

  /** The children page opens for exactly the callers whose dashboard embeds
      the parent panel. */
  lemma ChildrenPageMatchesDashboard(caller: Option<Caller>)
    ensures ChildrenPage(caller).Render? <==> Dashboard(caller).Render? && Dashboard(caller).view.panel == Some(ParentPanel)
  {
  }
}
