/** The progress page: the request it sends to `/api/progress` for the
    student in its own URL and the two selects, the heading, and what it
    shows once the reply is in. */
module ProgressPage {
  import opened Common
  import opened Strings
  import opened Records
  import opened UrlQuery
  import ProgressApi
  import StudentsPage

  /** The values of the subject and timeframe selects. */
  const SubjectValues: seq<string> := ["all", "math", "physics", "chemistry", "biology", "english"]
  const TimeframeValues: seq<string> := ["1month", "3months", "6months", "1year"]

  /** `student_id` as the page's own URL carries it, and the two selects. */
  datatype View = View(studentId: Option<string>, subject: string, timeframe: string)

  /** The page as it opens: all subjects over the last three months. */
  function Opened(studentId: Option<string>): View {
    View(studentId, "all", "3months")
  }

  /** The search parameters, in the order the page appends them. */
  function Params(v: View): seq<(string, string)> {
    Param(Truthy(v.studentId), "student_id", v.studentId.GetOr(""))
    + Param(v.subject != "all", "subject", v.subject)
    + [("timeframe", v.timeframe)]
  }

  /** The request URL; the timeframe is always appended, so it always has
      a query. */
  function FetchUrl(v: View): (r: string)
    ensures r == "/api/progress" + "?" + QueryString(Params(v))
  {
    WithQuery("/api/progress", Params(v))
  }

  /** What the route reads back from a request URL. */
  function ServerQuery(url: string): ProgressApi.ProgressQuery {
    var pairs := ParseQuery(QueryOf(url));
    ProgressApi.ProgressQuery(Get(pairs, "student_id"), Get(pairs, "subject"), Get(pairs, "timeframe"))
  }

  /** Each parameter is found under its own name, and only when present. */
  lemma GetParams(v: View)
    ensures var ps := Params(v);
      && Get(ps, "student_id") == (if Truthy(v.studentId) then v.studentId else None)
      && Get(ps, "subject") == (if v.subject != "all" then Some(v.subject) else None)
      && Get(ps, "timeframe") == Some(v.timeframe)
  {
    var a := Param(Truthy(v.studentId), "student_id", v.studentId.GetOr(""));
    var b := Param(v.subject != "all", "subject", v.subject);
    var c := [("timeframe", v.timeframe)];
    assert Params(v) == a + b + c;
    GetConcat(a, b + c, "subject");
    GetConcat(b, c, "subject");
    GetConcat(a, b + c, "timeframe");
    GetConcat(b, c, "timeframe");
    GetConcat(a, b + c, "student_id");
  }

  /** The route receives the page's student when one is named (a blank
      `student_id` is dropped), the subject unless it is "all", and always
      the timeframe. */
  lemma ViewReachesServer(v: View)
    ensures ServerQuery(FetchUrl(v)) == ProgressApi.ProgressQuery(
      if Truthy(v.studentId) then v.studentId else None,
      if v.subject != "all" then Some(v.subject) else None,
      Some(v.timeframe))
  {
    QueryOfWithQuery("/api/progress", Params(v));
    GetParams(v);
  }

  /** A report the route sends is about the student the page names, or
      about the caller when it names none. */
  lemma ReportIsForShownStudent(c: Caller, v: View, snap: Snapshot)
    ensures var r := ProgressApi.GetProgress(Some(c), ServerQuery(FetchUrl(v)), snap);
      r.Ok? ==> r.body.studentId == (if Truthy(v.studentId) then v.studentId.value else c.id)
  {
    ViewReachesServer(v);
  }

  /** Changing either select refetches, but the reply is the same. */
  lemma SelectsDoNotChangeReply(caller: Option<Caller>, v: View, subject: string, timeframe: string, snap: Snapshot)
    ensures ProgressApi.GetProgress(caller, ServerQuery(FetchUrl(v)), snap)
         == ProgressApi.GetProgress(caller, ServerQuery(FetchUrl(v.(subject := subject, timeframe := timeframe))), snap)
  {
    var w := v.(subject := subject, timeframe := timeframe);
    ViewReachesServer(v);
    ViewReachesServer(w);
    ProgressApi.SubjectAndTimeframeIgnored(caller, ServerQuery(FetchUrl(v)), ServerQuery(FetchUrl(w)), snap);
  }

  /** The heading; the "Back to Students" button is shown with the first. */
  function Heading(v: View): (r: string)
    ensures r == "Student Progress" <==> Truthy(v.studentId)
    ensures r == "Your Progress" <==> !Truthy(v.studentId)
  {
    if Truthy(v.studentId) then "Student Progress" else "Your Progress"
  }

  /** Applying the reply: the report on success, otherwise the previous
      report and an error toast with the route's message. Once loading is
      over, a report is shown exactly when this reply or an earlier one
      carried one. */
  function Load(previous: Option<ProgressApi.ProgressReport>, reply: Response<ProgressApi.ProgressReport>)
    : (r: (Option<ProgressApi.ProgressReport>, Option<Toast>))
    ensures reply.Ok? ==> r == (Some(reply.body), None)
    ensures reply.Error? ==> r.0 == previous && r.1.Some? && r.1.value.destructive
    ensures reply.Error? && reply.message != "" ==> r.1.value.description == reply.message
    ensures reply.Error? && reply.message == "" ==> r.1.value.description == "Failed to fetch progress data"
    ensures Content(false, r.0).Report? <==> reply.Ok? || previous.Some?
  {
    if reply.Ok? then (Some(reply.body), None)
    else (previous, Some(Toast("Error", if reply.message != "" then reply.message else "Failed to fetch progress data", true)))
  }

  /** The main area: a spinner while the first reply is pending, the report
      once there is one, otherwise the empty notice. */
  datatype Body = Spinner | Report(report: ProgressApi.ProgressReport) | NoData

  function Content(loading: bool, data: Option<ProgressApi.ProgressReport>): (b: Body)
    ensures b.Spinner? <==> loading && data.None?
    ensures b.Report? <==> data.Some?
    ensures b.Report? ==> b.report == data.value
    ensures b.NoData? <==> !loading && data.None?
  {
    if loading && data.None? then Spinner
    else if data.Some? then Report(data.value)
    else NoData
  }

  /** Opening a student's progress from the student list: the heading is
      "Student Progress", and a tutor who shares a session with that
      student sees that student's report. */
  lemma OpenedFromStudentList(s: StudentsPage.StudentEntry, c: Caller, snap: Snapshot)
    requires EffectiveRole(c) == "tutor"
    requires HaveSharedSession(snap.sessions, c.id, IntToString(s.id))
    ensures var v := Opened(Get(ParseQuery(QueryOf(StudentsPage.ProgressLink(s))), "student_id"));
      var reply := ProgressApi.GetProgress(Some(c), ServerQuery(FetchUrl(v)), snap);
      && Heading(v) == "Student Progress"
      && reply.Ok?
      && Content(false, Load(None, reply).0) == Report(reply.body)
      && reply.body.studentId == IntToString(s.id)
  {
    StudentsPage.ProgressLinkCarriesId(s);
    var v := Opened(Some(IntToString(s.id)));
    ViewReachesServer(v);
  }
}
