/** `GET /api/progress`: a student's progress summary, shown only to callers
    the role rule admits. The report itself is fixed sample data. */
module ProgressApi {
  import opened Common
  import opened Records

  /** The `student_id`, `subject` and `timeframe` search parameters. */
  datatype ProgressQuery = ProgressQuery(studentId: Option<string>, subject: Option<string>, timeframe: Option<string>)

  datatype Summary = Summary(averageScore: int, improvement: int, completedTasks: int)

  /** The part of the reply the handler computes: whose report it is. */
  datatype ProgressReport = ProgressReport(studentId: string, studentName: string, summary: Summary)

  const SampleName := "Alex Johnson"
  const SampleSummary := Summary(76, 12, 24)

  const OwnOnly := "You can only view your own progress"
  const ChildrenOnly := "You can only view your children's progress"
  const StudentsOnly := "You can only view progress for your students"

  /** `student_id` when truthy, else the caller itself. */
  function TargetStudent(c: Caller, q: ProgressQuery): (s: string)
    ensures Truthy(q.studentId) ==> s == q.studentId.value
    ensures !Truthy(q.studentId) ==> s == c.id
  {
    OrElse(q.studentId, c.id)
  }

  function GetProgress(caller: Option<Caller>, q: ProgressQuery, snap: Snapshot): (r: Response<ProgressReport>)
    ensures caller.None? ==> r == Error(401, Unauthorized)
    ensures caller.Some? ==>
      var c := caller.value;
      var role := EffectiveRole(c);
      var s := TargetStudent(c, q);
      && (role == "student" ==> (r.Ok? <==> s == c.id))
      && (role == "parent" ==> (r.Ok? <==> ParentLink(c.id, s) in snap.links))
      && (role == "tutor" ==> (r.Ok? <==> HaveSharedSession(snap.sessions, c.id, s)))
      && (role !in {"student", "parent", "tutor"} ==> r.Ok?)
      && (r.Error? ==> r.status == 403)
      && (r.Error? && role == "student" ==> r.message == OwnOnly)
      && (r.Error? && role == "parent" ==> r.message == ChildrenOnly)
      && (r.Error? && role == "tutor" ==> r.message == StudentsOnly)
      && (r.Ok? ==> r == Ok(200, ProgressReport(s, SampleName, SampleSummary)))
  {
    if caller.None? then Error(401, Unauthorized)
    else
      var c := caller.value;
      var s := TargetStudent(c, q);
      match RoleCheck(EffectiveRole(c), c.id, s, snap)
      case NotSelf => Error(403, OwnOnly)
      case NotChild => Error(403, ChildrenOnly)
      case NotOwnStudent => Error(403, StudentsOnly)
      case Allowed => Ok(200, ProgressReport(s, SampleName, SampleSummary))
  }

  /** The `subject` and `timeframe` parameters do not change the reply. */
  lemma SubjectAndTimeframeIgnored(caller: Option<Caller>, q1: ProgressQuery, q2: ProgressQuery, snap: Snapshot)
    requires q1.studentId == q2.studentId
    ensures GetProgress(caller, q1, snap) == GetProgress(caller, q2, snap)
  {
  }

  /** Without `student_id`, a parent asks for its own id, which is not one
      of its children unless it is linked to itself: the request is denied. */
  lemma ParentWithoutStudentIdDenied(c: Caller, q: ProgressQuery, snap: Snapshot)
    requires EffectiveRole(c) == "parent" && !Truthy(q.studentId)
    requires ParentLink(c.id, c.id) !in snap.links
    ensures GetProgress(Some(c), q, snap) == Error(403, ChildrenOnly)
  {
  }

  /** A student asking for someone else is denied whatever the tables hold. */
  lemma StudentCannotSeeOthers(c: Caller, q: ProgressQuery, snap: Snapshot)
    requires EffectiveRole(c) == "student" && Truthy(q.studentId) && q.studentId.value != c.id
    ensures GetProgress(Some(c), q, snap) == Error(403, OwnOnly)
  {
  }
}
