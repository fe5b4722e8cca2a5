/** `POST /api/sessions` (book a session) and `GET /api/sessions` (list the
    sessions the caller may see, filtered and ordered by date and time). */
module SessionsApi {
  import opened Common
  import opened Strings
  import opened Records

  /** The booking body; `duration` defaults to 60 only when it is absent,
      so an explicit `null` reaches the insert. */
  datatype NewSessionRequest = NewSessionRequest(
    subject: Option<string>,
    tutorId: Option<string>,
    sessionDate: Option<string>,
    startTime: Option<string>,
    duration: Field<int>,
    notes: Option<string>)

  const MissingFields := "Missing required fields"
  const CreateFailed := "Failed to create session"
  const RetrieveFailed := "Failed to retrieve sessions"

  /** The `sessions.duration` column is a non-null number with a default
      (src/types/supabase.ts), so inserting an explicit `null` is refused
      with PostgreSQL's not-null message. */
  const NullDuration := "null value in column \"duration\" of relation \"sessions\" violates not-null constraint"

  /** The duration stored for an insert that succeeds. */
  function StoredDuration(d: Field<int>): int {
    match d
    case Present(n) => n
    case _ => 60
  }

  predicate HasRequiredFields(b: NewSessionRequest) {
    Truthy(b.subject) && Truthy(b.tutorId) && Truthy(b.sessionDate) && Truthy(b.startTime)
  }

  /** `POST /api/sessions`. Returns the reply and the `sessions` table after
      the call. `newId` is the id the database assigns to an inserted row and
      `insertError` the message of a failed insert; an explicit `null`
      duration always makes the insert fail. */
  function CreateSession(
    caller: Option<Caller>, body: Option<NewSessionRequest>, table: seq<SessionRow>,
    newId: string, insertError: Option<string>): (r: (Response<SessionRow>, seq<SessionRow>))
    ensures caller.None? ==> r.0 == Error(401, Unauthorized)
    ensures caller.Some? && body.None? ==> r.0 == Error(500, CreateFailed)
    ensures caller.Some? && body.Some? && !HasRequiredFields(body.value) ==> r.0 == Error(400, MissingFields)
    ensures r.0.Ok? <==> caller.Some? && body.Some? && HasRequiredFields(body.value)
                         && body.value.duration != Null && insertError.None?
    ensures caller.Some? && body.Some? && HasRequiredFields(body.value) && body.value.duration == Null
      ==> r.0 == Error(500, NullDuration)
    ensures r.0.Ok? ==> r.1 == table + [r.0.body]
    ensures !r.0.Ok? ==> r.1 == table
    ensures r.0.Ok? ==> && r.0.status == 201
                        && r.0.body.id == newId
                        && r.0.body.studentId == caller.value.id
                        && r.0.body.tutorId == body.value.tutorId.value
                        && r.0.body.subject == body.value.subject.value
                        && r.0.body.sessionDate == body.value.sessionDate.value
                        && r.0.body.startTime == body.value.startTime.value
                        && r.0.body.duration == (if body.value.duration.Present? then body.value.duration.value else 60)
                        && r.0.body.notes == body.value.notes
                        && r.0.body.status == "scheduled"
  {
    if caller.None? then (Error(401, Unauthorized), table)
    else if body.None? then (Error(500, CreateFailed), table)
    else
      var b := body.value;
      if !HasRequiredFields(b) then (Error(400, MissingFields), table)
      else if b.duration.Null? then (Error(500, NullDuration), table)
      else if insertError.Some? then (Error(500, insertError.value), table)
      else
        var row := SessionRow(newId, caller.value.id, b.tutorId.value, b.subject.value,
          b.sessionDate.value, b.startTime.value, StoredDuration(b.duration), b.notes, "scheduled");
        (Ok(201, row), table + [row])
  }

  /** Booking consults neither the existing sessions nor the caller's role:
      the reply is the same for any table and any role. */
  lemma CreateIgnoresTableAndRole(
    id: string, role1: Option<string>, role2: Option<string>, body: Option<NewSessionRequest>,
    t1: seq<SessionRow>, t2: seq<SessionRow>, newId: string, err: Option<string>)
    ensures CreateSession(Some(Caller(id, role1)), body, t1, newId, err).0
         == CreateSession(Some(Caller(id, role2)), body, t2, newId, err).0
  {
  }

  /** Booking the same slot twice succeeds twice: no conflict check exists. */
  lemma DoubleBookingAccepted(caller: Caller, body: NewSessionRequest, table: seq<SessionRow>, id1: string, id2: string)
    requires HasRequiredFields(body) && body.duration != Null
    ensures var first := CreateSession(Some(caller), Some(body), table, id1, None);
      var second := CreateSession(Some(caller), Some(body), first.1, id2, None);
      && second.0.Ok?
      && |second.1| == |table| + 2
      && second.1[|table|].sessionDate == second.1[|table| + 1].sessionDate
      && second.1[|table|].startTime == second.1[|table| + 1].startTime
      && second.1[|table|].tutorId == second.1[|table| + 1].tutorId
  {
  }

  // ---------------------------------------------------------------------
  // Listing

  /** The optional `status`, `from` and `to` search parameters. */
  datatype SessionsQuery = SessionsQuery(status: Option<string>, from: Option<string>, to: Option<string>)

  /** The ownership filter for one role (parents: the linked `children`). */
  predicate VisibleTo(role: string, callerId: string, children: set<string>, row: SessionRow) {
    if role == "student" then row.studentId == callerId
    else if role == "tutor" then row.tutorId == callerId
    else if role == "parent" then row.studentId in children
    else true
  }

  /** Exact status match; `from`/`to` are inclusive bounds on the date. */
  predicate MatchesQuery(q: SessionsQuery, row: SessionRow) {
    && (Truthy(q.status) ==> row.status == q.status.value)
    && (Truthy(q.from) ==> !StrLess(row.sessionDate, q.from.value))
    && (Truthy(q.to) ==> !StrLess(q.to.value, row.sessionDate))
  }

  /** `order("session_date").order("start_time")`. */
  predicate DateTimeLeq(a: SessionRow, b: SessionRow) {
    StrLess(a.sessionDate, b.sessionDate)
    || (a.sessionDate == b.sessionDate && !StrLess(b.startTime, a.startTime))
  }

  predicate SortedByDateTime(s: seq<SessionRow>) {
    forall i :: 0 <= i < |s| - 1 ==> DateTimeLeq(s[i], s[i + 1])
  }

  lemma DateTimeLeqTotal(a: SessionRow, b: SessionRow)
    ensures DateTimeLeq(a, b) || DateTimeLeq(b, a)
  {
    StrLessTotal(a.sessionDate, b.sessionDate);
    StrLessTotal(a.startTime, b.startTime);
    StrLessAsymmetric(a.startTime, b.startTime);
  }

  function InsertByDateTime(x: SessionRow, s: seq<SessionRow>): (r: seq<SessionRow>)
    requires SortedByDateTime(s)
    ensures SortedByDateTime(r)
    ensures multiset(r) == multiset(s) + multiset{x}
    ensures |r| == |s| + 1
    ensures r[0] == x || (|s| > 0 && r[0] == s[0])
  {
    if |s| == 0 then [x]
    else if DateTimeLeq(x, s[0]) then [x] + s
    else
      DateTimeLeqTotal(x, s[0]);
      assert s == [s[0]] + s[1..];
      var rest := InsertByDateTime(x, s[1..]);
      assert DateTimeLeq(s[0], rest[0]);
      [s[0]] + rest
  }

  /** The rows ordered by date, then start time. */
  function SortByDateTime(s: seq<SessionRow>): (r: seq<SessionRow>)
    ensures SortedByDateTime(r)
    ensures multiset(r) == multiset(s)
  {
    if |s| == 0 then []
    else
      assert s == [s[0]] + s[1..];
      InsertByDateTime(s[0], SortByDateTime(s[1..]))
  }

  /** `GET /api/sessions`. `queryError` is the message of a failed query. */
  function ListSessions(caller: Option<Caller>, q: SessionsQuery, snap: Snapshot, queryError: Option<string>): (r: Response<seq<SessionRow>>)
    ensures caller.None? ==> r == Error(401, Unauthorized)
    ensures r.Ok? ==> r.status == 200 && caller.Some? && SortedByDateTime(r.body)
    ensures r.Ok? ==> var role := EffectiveRole(caller.value);
      var children := ChildrenOf(snap.links, caller.value.id);
      multiset(r.body) == multiset(Filter(snap.sessions,
        row => VisibleTo(role, caller.value.id, children, row) && MatchesQuery(q, row)))
    ensures caller.Some? && EffectiveRole(caller.value) == "parent" && ChildrenOf(snap.links, caller.value.id) == {}
      ==> r == Ok(200, [])
    ensures caller.Some? && queryError.Some? && (EffectiveRole(caller.value) != "parent" || ChildrenOf(snap.links, caller.value.id) != {})
      ==> r == Error(500, queryError.value)
  {
    if caller.None? then Error(401, Unauthorized)
    else
      var c := caller.value;
      var role := EffectiveRole(c);
      var children := ChildrenOf(snap.links, c.id);
      if role == "parent" && children == {} then Ok(200, [])
      else if queryError.Some? then Error(500, queryError.value)
      else
        Ok(200, SortByDateTime(Filter(snap.sessions,
          row => VisibleTo(role, c.id, children, row) && MatchesQuery(q, row))))
  }

  /** Exactly the rows the caller may see and the query selects are listed. */
  lemma ListedRows(c: Caller, q: SessionsQuery, snap: Snapshot, row: SessionRow)
    ensures var r := ListSessions(Some(c), q, snap, None);
      r.Ok? && (row in r.body <==>
        row in snap.sessions && VisibleTo(EffectiveRole(c), c.id, ChildrenOf(snap.links, c.id), row) && MatchesQuery(q, row))
  {
    var r := ListSessions(Some(c), q, snap, None);
    assert row in r.body <==> row in multiset(r.body);
  }

  /** A caller without a role in its metadata is listed as a student: only
      its own sessions. */
  lemma MissingRoleMeansStudent(id: string, q: SessionsQuery, snap: Snapshot, row: SessionRow)
    ensures var r := ListSessions(Some(Caller(id, None)), q, snap, None);
      row in r.body ==> row.studentId == id
  {
    ListedRows(Caller(id, None), q, snap, row);
  }

  /** An admin (any role other than student, tutor, parent) is not
      restricted by ownership. */
  lemma AdminSeesEverySelectedRow(c: Caller, q: SessionsQuery, snap: Snapshot, row: SessionRow)
    requires EffectiveRole(c) == "admin"
    ensures var r := ListSessions(Some(c), q, snap, None);
      row in r.body <==> row in snap.sessions && MatchesQuery(q, row)
  {
    ListedRows(c, q, snap, row);
  }

  /** No filter parameters. */
  const NoFilter := SessionsQuery(None, None, None)

  /** A booked session is then listed, unfiltered, both to the student who
      booked it and to the tutor it names. */
  lemma CreatedSessionListed(c: Caller, b: NewSessionRequest, snap: Snapshot, newId: string, tutor: Caller)
    requires CreateSession(Some(c), Some(b), snap.sessions, newId, None).0.Ok?
    ensures var created := CreateSession(Some(c), Some(b), snap.sessions, newId, None);
      var after := snap.(sessions := created.1);
      && (EffectiveRole(c) == "student" ==> created.0.body in ListSessions(Some(c), NoFilter, after, None).body)
      && (EffectiveRole(tutor) == "tutor" && tutor.id == b.tutorId.value
          ==> created.0.body in ListSessions(Some(tutor), NoFilter, after, None).body)
  {
    var created := CreateSession(Some(c), Some(b), snap.sessions, newId, None);
    var after := snap.(sessions := created.1);
    var row := created.0.body;
    assert row in after.sessions by {
      assert after.sessions[|snap.sessions|] == row;
    }
    ListedRows(c, NoFilter, after, row);
    ListedRows(tutor, NoFilter, after, row);
  }
}
