/** The persisted entities the route handlers read, the authenticated
    caller, the role rule every handler shares, and the reply envelope.
    A database read is modelled as a plain input: a `Snapshot` of the
    tables involved. */
module Records {
  import opened Common

  /** The authenticated user: its id and the `role` from user metadata. */
  datatype Caller = Caller(id: string, metadataRole: Option<string>)

  /** `user.user_metadata?.role || "student"`. */
  function EffectiveRole(c: Caller): (r: string)
    ensures r != ""
    ensures Truthy(c.metadataRole) ==> r == c.metadataRole.value
    ensures !Truthy(c.metadataRole) ==> r == "student"
  {
    OrElse(c.metadataRole, "student")
  }

  /** A row of the `sessions` table. */
  datatype SessionRow = SessionRow(
    id: string,
    studentId: string,
    tutorId: string,
    subject: string,
    sessionDate: string,
    startTime: string,
    duration: int,
    notes: Option<string>,
    status: string)

  /** A row of the `student_parent` table. */
  datatype ParentLink = ParentLink(parentId: string, studentId: string)

  /** A row of the `users` table. */
  datatype UserRow = UserRow(
    id: string,
    name: Option<string>,
    fullName: Option<string>,
    email: string,
    role: string)

  /** `full_name || name || ""`: the name a page shows for a user. */
  function PreferredName(u: UserRow): (r: string)
    ensures Truthy(u.fullName) ==> r == u.fullName.value
    ensures !Truthy(u.fullName) && Truthy(u.name) ==> r == u.name.value
    ensures r == "" <==> !Truthy(u.fullName) && !Truthy(u.name)
  {
    OrElse(u.fullName, OrElse(u.name, ""))
  }

  /** A row of the `tutor_availability` table; `dayOfWeek` is `None` when
      the inserting request sent `null`. */
  datatype AvailabilityRow = AvailabilityRow(
    id: string,
    tutorId: string,
    dayOfWeek: Option<int>,
    startTime: string,
    endTime: string)

  /** The tables as one request sees them. */
  datatype Snapshot = Snapshot(
    sessions: seq<SessionRow>,
    links: set<ParentLink>,
    users: seq<UserRow>,
    availability: seq<AvailabilityRow>)

  /** A JSON reply: a status code with a payload, or with `{ error }`. */
  datatype Response<T> = Ok(status: int, body: T) | Error(status: int, message: string)
  {
    function Status(): int {
      match this
      case Ok(s, _) => s
      case Error(s, _) => s
    }
  }

  /** A notification a page shows; `destructive` marks an error. */
  datatype Toast = Toast(title: string, description: string, destructive: bool)

  const Unauthorized := "Unauthorized"

  /** Some session pairs tutor `tutorId` with student `studentId`
      (the `.eq("tutor_id", …).eq("student_id", …).limit(1)` lookup). */
  predicate HaveSharedSession(sessions: seq<SessionRow>, tutorId: string, studentId: string) {
    exists i | 0 <= i < |sessions| :: sessions[i].tutorId == tutorId && sessions[i].studentId == studentId
  }

  /** The student ids linked to `parentId`. */
  function ChildrenOf(links: set<ParentLink>, parentId: string): (r: set<string>)
    ensures forall s :: s in r <==> ParentLink(parentId, s) in links
  {
    set l | l in links && l.parentId == parentId :: l.studentId
  }

  /** The outcome of the per-role check shared by the progress and
      recommendation handlers. */
  datatype Verdict = Allowed | NotSelf | NotChild | NotOwnStudent

  /** A student may see only itself, a parent only a linked child, a tutor
      only a student it has a session with; every other role passes. */
  function RoleCheck(role: string, callerId: string, studentId: string, snap: Snapshot): (v: Verdict)
    ensures v == Allowed <==>
      && (role == "student" ==> studentId == callerId)
      && (role == "parent" ==> ParentLink(callerId, studentId) in snap.links)
      && (role == "tutor" ==> HaveSharedSession(snap.sessions, callerId, studentId))
    ensures v == NotSelf <==> role == "student" && studentId != callerId
    ensures v == NotChild <==> role == "parent" && ParentLink(callerId, studentId) !in snap.links
    ensures v == NotOwnStudent <==> role == "tutor" && !HaveSharedSession(snap.sessions, callerId, studentId)
  {
    if role == "student" && studentId != callerId then NotSelf
    else if role == "parent" && ParentLink(callerId, studentId) !in snap.links then NotChild
    else if role == "tutor" && !HaveSharedSession(snap.sessions, callerId, studentId) then NotOwnStudent
    else Allowed
  }
}
