/** The sessions list page: the filters it turns into a request to
    `/api/sessions`, what it shows for each row, and the local update after a
    status change. */
module SessionsPage {
  import opened Common
  import opened Strings
  import opened Records
  import opened Clock
  import opened UrlQuery
  import SessionsApi

  /** The status select ("" is "All statuses") and the picked date range. */
  datatype Filters = Filters(status: string, from: Option<Date>, to: Option<Date>)

  /** The search parameters, in the order the page appends them, with each
      end of the range already written as text. */
  function Params(status: string, from: Option<string>, to: Option<string>): seq<(string, string)> {
    Param(status != "", "status", status)
    + Param(from.Some?, "from", from.GetOr(""))
    + Param(to.Some?, "to", to.GetOr(""))
  }

  function FormatDay(d: Option<Date>): Option<string> {
    if d.Some? then Some(IsoDate(d.value)) else None
  }

  function FetchUrl(f: Filters): string {
    WithQuery("/api/sessions", Params(f.status, FormatDay(f.from), FormatDay(f.to)))
  }

  /** What the route reads back from a request URL. */
  function ServerQuery(url: string): SessionsApi.SessionsQuery {
    var pairs := ParseQuery(QueryOf(url));
    SessionsApi.SessionsQuery(Get(pairs, "status"), Get(pairs, "from"), Get(pairs, "to"))
  }

  /** The request goes to the bare path exactly when no filter is set;
      otherwise a query string follows. */
  lemma BareUrlIffNoFilter(f: Filters)
    ensures FetchUrl(f) == "/api/sessions" <==> f.status == "" && f.from.None? && f.to.None?
  {
    var params := Params(f.status, FormatDay(f.from), FormatDay(f.to));
    if f.status != "" || f.from.Some? || f.to.Some? {
      assert |params| > 0;
      assert |FetchUrl(f)| > |"/api/sessions"|;
    }
  }

  /** Each parameter is found under its own name, and only when present. */
  lemma GetParams(status: string, from: Option<string>, to: Option<string>)
    ensures var ps := Params(status, from, to);
      && Get(ps, "status") == (if status != "" then Some(status) else None)
      && Get(ps, "from") == from
      && Get(ps, "to") == to
  {
    var a, b, c := Param(status != "", "status", status), Param(from.Some?, "from", from.GetOr("")),
      Param(to.Some?, "to", to.GetOr(""));
    assert Params(status, from, to) == a + b + c;
    GetConcat(a, b + c, "from");
    GetConcat(b, c, "from");
    GetConcat(a, b + c, "to");
    GetConcat(b, c, "to");
    GetConcat(a, b + c, "status");
  }

  /** The route receives exactly the filters the page holds: the status when
      one is selected, and each end of the range as a `yyyy-MM-dd` date. */
  lemma FiltersReachServer(f: Filters)
    ensures ServerQuery(FetchUrl(f)) == SessionsApi.SessionsQuery(
      if f.status != "" then Some(f.status) else None, FormatDay(f.from), FormatDay(f.to))
  {
    var params := Params(f.status, FormatDay(f.from), FormatDay(f.to));
    QueryOfWithQuery("/api/sessions", params);
    GetParams(f.status, FormatDay(f.from), FormatDay(f.to));
  }

  lemma FromBound(from: Option<Date>, d: Date)
    requires InRange(d) && (from.Some? ==> InRange(from.value))
    ensures (Truthy(FormatDay(from)) ==> !StrLess(IsoDate(d), FormatDay(from).value))
        <==> (from.Some? ==> !Before(d, from.value))
  {
    if from.Some? {
      var t := IsoDate(from.value);
      IsoDateShape(from.value);
      assert |t| == 10;
      assert FormatDay(from) == Some(t);
      IsoDateOrder(d, from.value);
    }
  }

  lemma ToBound(to: Option<Date>, d: Date)
    requires InRange(d) && (to.Some? ==> InRange(to.value))
    ensures (Truthy(FormatDay(to)) ==> !StrLess(FormatDay(to).value, IsoDate(d)))
        <==> (to.Some? ==> !Before(to.value, d))
  {
    if to.Some? {
      var t := IsoDate(to.value);
      IsoDateShape(to.value);
      assert |t| == 10;
      assert FormatDay(to) == Some(t);
      IsoDateOrder(to.value, d);
    }
  }

  /** The date filter the route applies to the page's range is the
      chronological one: a session dated `d` passes exactly when `d` lies
      within the range, ends included. */
  lemma DateRangeIsChronological(f: Filters, row: SessionRow, d: Date)
    requires row.sessionDate == IsoDate(d) && InRange(d)
    requires f.from.Some? ==> InRange(f.from.value)
    requires f.to.Some? ==> InRange(f.to.value)
    ensures SessionsApi.MatchesQuery(ServerQuery(FetchUrl(f)), row) <==>
      && (f.status != "" ==> row.status == f.status)
      && (f.from.Some? ==> !Before(d, f.from.value))
      && (f.to.Some? ==> !Before(f.to.value, d))
  {
    FiltersReachServer(f);
    FromBound(f.from, d);
    ToBound(f.to, d);
  }

  /** Applying the reply of the list request: the rows on success (`[]` when
      the reply carries none), otherwise the previous rows and an error
      toast. */
  function Load(previous: seq<SessionRow>, reply: Response<seq<SessionRow>>): (r: (seq<SessionRow>, Option<Toast>))
    ensures reply.Ok? ==> r == (reply.body, None)
    ensures reply.Error? ==> && r.0 == previous && r.1.Some? && r.1.value.destructive
                             && r.1.value.description != ""
  {
    if reply.Ok? then (reply.body, None)
    else (previous, Some(Toast("Error", if reply.message != "" then reply.message else "Failed to fetch sessions", true)))
  }

  /** `handleStatusChange` after the PATCH reply: `ok` is `response.ok`. The
      table keeps its rows and their ids; on success every row with the id
      shows the new status and every other row is one of the old ones. */
  function ChangeStatus(sessions: seq<SessionRow>, id: string, newStatus: string, ok: bool, message: string): (r: (seq<SessionRow>, Toast))
    ensures |r.0| == |sessions|
    ensures forall i :: 0 <= i < |sessions| ==> r.0[i].id == sessions[i].id
    ensures ok ==> forall row :: row in r.0 && row.id == id ==> row.status == newStatus
    ensures forall row :: row in r.0 && row.id != id ==> row in sessions
    ensures ok ==> forall i :: 0 <= i < |sessions| ==>
      r.0[i] == if sessions[i].id == id then sessions[i].(status := newStatus) else sessions[i]
    ensures !ok ==> r.0 == sessions && r.1.destructive
    ensures ok ==> r.1 == Toast("Success", "Session " + ToLower(newStatus) + " successfully", false)
  {
    if !ok then (sessions, Toast("Error", if message != "" then message else "Failed to update session", true))
    else
      (seq(|sessions|, i requires 0 <= i < |sessions| =>
         if sessions[i].id == id then sessions[i].(status := newStatus) else sessions[i]),
       Toast("Success", "Session " + ToLower(newStatus) + " successfully", false))
  }

  /** After a successful change every row with that id has the new status,
      every other row is untouched, and repeating the change alters nothing;
      a failed change alters nothing either. */
  lemma ChangeStatusFacts(sessions: seq<SessionRow>, id: string, newStatus: string)
    ensures var after := ChangeStatus(sessions, id, newStatus, true, "").0;
      && (forall r :: r in after && r.id == id ==> r.status == newStatus)
      && (forall r :: r in after && r.id != id ==> r in sessions)
      && ChangeStatus(after, id, newStatus, true, "").0 == after
    ensures forall m :: ChangeStatus(sessions, id, newStatus, false, m).0 == sessions
  {
    var after := ChangeStatus(sessions, id, newStatus, true, "").0;
    forall r | r in after
      ensures r.id == id ==> r.status == newStatus
      ensures r.id != id ==> r in sessions
    {
      var i :| 0 <= i < |after| && after[i] == r;
      if r.id != id {
        assert r == sessions[i];
      }
    }
  }

  /** The badge colour class; the status is lower-cased first. */
  function BadgeClass(status: string): (r: string)
    ensures ToLower(status) !in {"scheduled", "completed", "cancelled", "in progress"} ==> r == "bg-gray-100 text-gray-800"
  {
    var s := ToLower(status);
    if s == "scheduled" then "bg-blue-100 text-blue-800"
    else if s == "completed" then "bg-green-100 text-green-800"
    else if s == "cancelled" then "bg-red-100 text-red-800"
    else if s == "in progress" then "bg-yellow-100 text-yellow-800"
    else "bg-gray-100 text-gray-800"
  }

  /** The colour ignores case: it depends on the lower-cased status only. */
  lemma BadgeClassIgnoresCase(status: string)
    ensures BadgeClass(status) == BadgeClass(ToLower(status))
  {
    ToLowerIdempotent(status);
  }

  /** The page's filter offers "in progress" (with a space) while the details
      card knows "in_progress": the stored spelling the card colours yellow
      is grey here. */
  lemma InProgressSpellings()
    ensures BadgeClass("In Progress") == "bg-yellow-100 text-yellow-800"
    ensures BadgeClass("in_progress") == "bg-gray-100 text-gray-800"
  {
    assert ToLower("In Progress") == "in progress";
    assert ToLower("in_progress") == "in_progress";
  }

  /** `tutor?.full_name || tutor?.name || "Unknown"` over the joined tutor. */
  function TutorName(tutor: Option<UserRow>): (r: string)
    ensures r != ""
    ensures tutor.Some? && PreferredName(tutor.value) != "" ==> r == PreferredName(tutor.value)
    ensures tutor.None? ==> r == "Unknown"
  {
    if tutor.None? || PreferredName(tutor.value) == "" then "Unknown" else PreferredName(tutor.value)
  }

  /** One table row: subject, start time, duration text, tutor, badge class,
      and whether "Mark Completed" and "Cancel" are offered. */
  datatype RowView = RowView(subject: string, startTime: string, duration: string, tutor: string,
                             badgeClass: string, actions: bool)

  function Row(s: SessionRow, tutor: Option<UserRow>): (v: RowView)
    ensures v.actions <==> s.status == "scheduled"
    ensures v.duration == IntToString(s.duration) + " min"
    ensures v.tutor != ""
  {
    RowView(s.subject, s.startTime, IntToString(s.duration) + " min", TutorName(tutor),
            BadgeClass(s.status), s.status == "scheduled")
  }

  /** What the card body shows. */
  datatype Body = Spinner | Table(rows: seq<RowView>) | NoSessions

  function Content(loading: bool, sessions: seq<SessionRow>, tutors: seq<Option<UserRow>>): (b: Body)
    requires |tutors| == |sessions|
    ensures loading <==> b.Spinner?
    ensures b.Table? ==> |b.rows| == |sessions| > 0
    ensures b.NoSessions? <==> !loading && |sessions| == 0
  {
    if loading then Spinner
    else if |sessions| > 0 then Table(seq(|sessions|, i requires 0 <= i < |sessions| => Row(sessions[i], tutors[i])))
    else NoSessions
  }

  /** A session marked completed from the table loses its row actions. */
  lemma CompletedRowHasNoActions(sessions: seq<SessionRow>, id: string, i: int, tutor: Option<UserRow>)
    requires 0 <= i < |sessions| && sessions[i].id == id
    ensures !Row(ChangeStatus(sessions, id, "completed", true, "").0[i], tutor).actions
  {
  }

  /** After the list request for the page's filters, the page holds exactly
      the sessions the route lets the caller see that match those filters:
      the table shows one row per such session, and the empty notice shows
      exactly when there is none. */
  lemma PageShowsListedSessions(c: Caller, f: Filters, snap: Snapshot, previous: seq<SessionRow>,
                                tutors: seq<Option<UserRow>>)
    requires |tutors| == |Load(previous, SessionsApi.ListSessions(Some(c), ServerQuery(FetchUrl(f)), snap, None)).0|
    ensures var q := ServerQuery(FetchUrl(f));
      var shown := Load(previous, SessionsApi.ListSessions(Some(c), q, snap, None)).0;
      var body := Content(false, shown, tutors);
      && (forall row :: row in shown <==> (row in snap.sessions && SessionsApi.MatchesQuery(q, row)
            && SessionsApi.VisibleTo(EffectiveRole(c), c.id, ChildrenOf(snap.links, c.id), row)))
      && (body.NoSessions? <==> forall row :: row in snap.sessions ==>
            !(SessionsApi.MatchesQuery(q, row) && SessionsApi.VisibleTo(EffectiveRole(c), c.id, ChildrenOf(snap.links, c.id), row)))
      && (body.Table? ==> forall i :: 0 <= i < |shown| ==> body.rows[i] == Row(shown[i], tutors[i]))
  {
    var q := ServerQuery(FetchUrl(f));
    var reply := SessionsApi.ListSessions(Some(c), q, snap, None);
    var shown := Load(previous, reply).0;
    forall row
      ensures row in shown <==> (row in snap.sessions && SessionsApi.MatchesQuery(q, row)
            && SessionsApi.VisibleTo(EffectiveRole(c), c.id, ChildrenOf(snap.links, c.id), row))
    {
      SessionsApi.ListedRows(c, q, snap, row);
    }
    if |shown| > 0 {
      assert shown[0] in shown;
    }
  }
}
