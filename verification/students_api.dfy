/** `GET /api/students`: user rows with role "student", narrowed by the
    caller's role and by the optional `tutor_id` and `parent_id` parameters.
    A lookup that finds nothing ends the request with an empty list. */
module StudentsApi {
  import opened Common
  import opened Records

  /** The `tutor_id` and `parent_id` search parameters. */
  datatype StudentsQuery = StudentsQuery(tutorId: Option<string>, parentId: Option<string>)

  /** `[...new Set(sessions.map(s => s.student_id))]` over a tutor's sessions. */
  function TutorStudents(sessions: seq<SessionRow>, tutorId: string): (r: seq<string>)
    ensures forall s :: s in r <==> HaveSharedSession(sessions, tutorId, s)
    ensures forall i, j :: 0 <= i < j < |r| ==> r[i] != r[j]
  {
    var own := Filter(sessions, (row: SessionRow) => row.tutorId == tutorId);
    var ids := seq(|own|, i requires 0 <= i < |own| => own[i].studentId);
    assert forall s :: s in ids <==> HaveSharedSession(sessions, tutorId, s) by {
      forall s
        ensures s in ids <==> HaveSharedSession(sessions, tutorId, s)
      {
        if s in ids {
          var i :| 0 <= i < |ids| && ids[i] == s;
          assert own[i] in sessions;
          var k :| 0 <= k < |sessions| && sessions[k] == own[i];
        }
        if HaveSharedSession(sessions, tutorId, s) {
          var k :| 0 <= k < |sessions| && sessions[k].tutorId == tutorId && sessions[k].studentId == s;
          assert sessions[k] in own;
          var i :| 0 <= i < |own| && own[i] == sessions[k];
          assert ids[i] == s;
        }
      }
    }
    Dedup(ids)
  }

  /** The id sets the handler narrows the query to, in the order it applies
      them: the caller's own students or children (unless the matching
      parameter is given), then the `tutor_id` and `parent_id` parameters. */
  function Narrowings(c: Caller, q: StudentsQuery, snap: Snapshot): seq<set<string>> {
    var role := EffectiveRole(c);
    When(role == "tutor" && !Truthy(q.tutorId), set s | s in TutorStudents(snap.sessions, c.id))
    + When(role == "parent" && !Truthy(q.parentId), ChildrenOf(snap.links, c.id))
    + When(Truthy(q.tutorId), set s | s in TutorStudents(snap.sessions, q.tutorId.GetOr("")))
    + When(Truthy(q.parentId), ChildrenOf(snap.links, q.parentId.GetOr("")))
  }

  function When(b: bool, ids: set<string>): seq<set<string>> {
    if b then [ids] else []
  }

  /** `id` lies in every set of `ns`. */
  predicate InAll(ns: seq<set<string>>, id: string) {
    forall k :: 0 <= k < |ns| ==> id in ns[k]
  }

  lemma InAllConcat(a: seq<set<string>>, b: seq<set<string>>, id: string)
    ensures InAll(a + b, id) <==> InAll(a, id) && InAll(b, id)
  {
    if InAll(a, id) && InAll(b, id) {
      forall k | 0 <= k < |a + b|
        ensures id in (a + b)[k]
      {
        if k >= |a| {
          assert (a + b)[k] == b[k - |a|];
        }
      }
    }
    if InAll(a + b, id) {
      forall k | 0 <= k < |a|
        ensures id in a[k]
      {
        assert (a + b)[k] == a[k];
      }
      forall k | 0 <= k < |b|
        ensures id in b[k]
      {
        assert (a + b)[|a| + k] == b[k];
      }
    }
  }

  /** The students the request admits, stated on the tables directly. */
  predicate Admitted(c: Caller, q: StudentsQuery, snap: Snapshot, id: string) {
    var role := EffectiveRole(c);
    && (role == "tutor" && !Truthy(q.tutorId) ==> HaveSharedSession(snap.sessions, c.id, id))
    && (role == "parent" && !Truthy(q.parentId) ==> ParentLink(c.id, id) in snap.links)
    && (Truthy(q.tutorId) ==> HaveSharedSession(snap.sessions, q.tutorId.value, id))
    && (Truthy(q.parentId) ==> ParentLink(q.parentId.value, id) in snap.links)
  }

  lemma InAllWhen(b: bool, ids: set<string>, id: string)
    ensures InAll(When(b, ids), id) <==> (b ==> id in ids)
  {
    if b {
      assert When(b, ids)[0] == ids;
    }
  }

  lemma NarrowingsAdmit(c: Caller, q: StudentsQuery, snap: Snapshot, id: string)
    ensures InAll(Narrowings(c, q, snap), id) <==> Admitted(c, q, snap, id)
  {
    var role := EffectiveRole(c);
    var own := set s | s in TutorStudents(snap.sessions, c.id);
    var named := set s | s in TutorStudents(snap.sessions, q.tutorId.GetOr(""));
    var a := When(role == "tutor" && !Truthy(q.tutorId), own);
    var b := When(role == "parent" && !Truthy(q.parentId), ChildrenOf(snap.links, c.id));
    var t := When(Truthy(q.tutorId), named);
    var p := When(Truthy(q.parentId), ChildrenOf(snap.links, q.parentId.GetOr("")));
    assert Narrowings(c, q, snap) == a + b + t + p;
    InAllWhen(role == "tutor" && !Truthy(q.tutorId), own, id);
    InAllWhen(role == "parent" && !Truthy(q.parentId), ChildrenOf(snap.links, c.id), id);
    InAllWhen(Truthy(q.tutorId), named, id);
    InAllWhen(Truthy(q.parentId), ChildrenOf(snap.links, q.parentId.GetOr("")), id);
    InAllConcat(a, b, id);
    InAllConcat(a + b, t, id);
    InAllConcat(a + b + t, p, id);
    assert id in own <==> HaveSharedSession(snap.sessions, c.id, id);
    assert id in named <==> HaveSharedSession(snap.sessions, q.tutorId.GetOr(""), id);
  }

  /** `queryError` is the message of a failed final query. */
  function ListStudents(caller: Option<Caller>, q: StudentsQuery, snap: Snapshot, queryError: Option<string>): (r: Response<seq<UserRow>>)
    ensures caller.None? ==> r == Error(401, Unauthorized)
    ensures r.Ok? ==> r.status == 200 && caller.Some?
    ensures r.Ok? ==> forall u :: u in r.body <==>
      u in snap.users && u.role == "student" && Admitted(caller.value, q, snap, u.id)
    ensures r.Ok? ==> IsSublist(r.body, snap.users)
    ensures caller.Some? && queryError.None? ==> r.Ok?
    ensures r.Error? && caller.Some? ==> r == Error(500, queryError.value)
  {
    if caller.None? then Error(401, Unauthorized)
    else
      var c := caller.value;
      var ns := Narrowings(c, q, snap);
      if exists k :: 0 <= k < |ns| && ns[k] == {} then
        assert forall u: UserRow :: !Admitted(c, q, snap, u.id) by {
          forall u: UserRow
            ensures !Admitted(c, q, snap, u.id)
          {
            NarrowingsAdmit(c, q, snap, u.id);
          }
        }
        Ok(200, [])
      else if queryError.Some? then Error(500, queryError.value)
      else
        var r := Filter(snap.users, (u: UserRow) =>
          u.role == "student" && InAll(ns, u.id));
        assert forall u :: u in r <==> u in snap.users && u.role == "student" && Admitted(c, q, snap, u.id) by {
          forall u
            ensures u in r <==> u in snap.users && u.role == "student" && Admitted(c, q, snap, u.id)
          {
            NarrowingsAdmit(c, q, snap, u.id);
          }
        }
        Ok(200, r)
  }

  /** Without parameters, a student or an admin is not narrowed at all: it
      gets every student row. */
  lemma UnnarrowedRolesSeeAllStudents(c: Caller, snap: Snapshot, u: UserRow)
    requires EffectiveRole(c) != "tutor" && EffectiveRole(c) != "parent"
    ensures var r := ListStudents(Some(c), StudentsQuery(None, None), snap, None);
      u in r.body <==> u in snap.users && u.role == "student"
  {
  }

  /** A tutor's own list holds only students it has a session with. */
  lemma TutorSeesOwnStudents(c: Caller, snap: Snapshot, u: UserRow)
    requires EffectiveRole(c) == "tutor"
    ensures var r := ListStudents(Some(c), StudentsQuery(None, None), snap, None);
      u in r.body <==> u in snap.users && u.role == "student" && HaveSharedSession(snap.sessions, c.id, u.id)
  {
  }

  /** A parent passing another parent's id is narrowed to that parent's
      children only: the handler does not check the link. */
  lemma ParentMayAskForOtherParent(c: Caller, other: string, snap: Snapshot, u: UserRow)
    requires EffectiveRole(c) == "parent" && other != ""
    ensures var r := ListStudents(Some(c), StudentsQuery(None, Some(other)), snap, None);
      u in r.body <==> u in snap.users && u.role == "student" && ParentLink(other, u.id) in snap.links
  {
  }
}
