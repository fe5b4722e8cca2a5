/** The session details card: what it shows for a loaded session, and the
    cancel and complete actions, as transitions of the stored row and of the
    card's own state. */
module SessionDetails {
  import opened Common
  import opened Strings
  import opened Records

  /** The `userRole` prop; a default applies only when it is not passed. */
  function RoleProp(p: Option<string>): (r: string)
    ensures p.None? ==> r == "student"
    ensures p.Some? ==> r == p.value
  {
    p.GetOr("student")
  }

  /** The text and colour of a status badge. */
  datatype Badge = Badge(text: string, colour: string)

  function StatusBadge(status: string): (b: Badge)
    ensures status !in {"scheduled", "completed", "cancelled", "in_progress"} ==> b == Badge(status, "gray")
  {
    if status == "scheduled" then Badge("Scheduled", "blue")
    else if status == "completed" then Badge("Completed", "green")
    else if status == "cancelled" then Badge("Cancelled", "red")
    else if status == "in_progress" then Badge("In Progress", "yellow")
    else Badge(status, "gray")
  }

  /** The four known statuses get four different colours, none of them the
      fallback grey. */
  lemma KnownStatusesDistinct(a: string, b: string)
    requires a in {"scheduled", "completed", "cancelled", "in_progress"}
    requires b in {"scheduled", "completed", "cancelled", "in_progress"}
    ensures StatusBadge(a).colour != "gray"
    ensures a != b ==> StatusBadge(a).colour != StatusBadge(b).colour
  {
  }

  /** `id.substring(0, 8)`. */
  function ShortId(id: string): (r: string)
    ensures |r| == if |id| < 8 then |id| else 8
    ensures StartsWith(id, r)
  {
    if |id| < 8 then id else id[..8]
  }

  datatype DetailsView =
    | NotFound
    | Shown(title: string, shortId: string, badge: Badge, counterpartHeading: string,
            counterpartName: string, notes: string, actions: bool, completeButton: bool)

  /** The card for a loaded (or missing) session; `tutor` and `student` are
      the joined user rows. */
  function View(session: Option<SessionRow>, role: string, tutor: UserRow, student: UserRow): (v: DetailsView)
    ensures session.None? <==> v.NotFound?
    ensures v.Shown? ==> && v.title == session.value.subject + " Session"
                         && v.shortId == ShortId(session.value.id) && StartsWith(session.value.id, v.shortId)
                         && v.badge == StatusBadge(session.value.status)
                         && (v.actions <==> session.value.status == "scheduled")
                         && (v.completeButton <==> v.actions && role == "tutor")
    ensures v.Shown? && role == "tutor" ==> v.counterpartHeading == "Student" && v.counterpartName == PreferredName(student)
    ensures v.Shown? && role != "tutor" ==> v.counterpartHeading == "Tutor" && v.counterpartName == PreferredName(tutor)
    ensures v.Shown? && Truthy(session.value.notes) ==> v.notes == session.value.notes.value
    ensures v.Shown? && !Truthy(session.value.notes) ==> v.notes == "No notes provided"
  {
    if session.None? then NotFound
    else
      var s := session.value;
      var scheduled := s.status == "scheduled";
      Shown(s.subject + " Session", ShortId(s.id), StatusBadge(s.status),
        if role == "tutor" then "Student" else "Tutor",
        if role == "tutor" then PreferredName(student) else PreferredName(tutor),
        OrElse(s.notes, "No notes provided"),
        scheduled, scheduled && role == "tutor")
  }

  /** The card's own state while a session is shown. */
  datatype CardState = CardState(shown: SessionRow, cancelOpen: bool, reason: string)

  const ReasonRequired := "Please provide a reason for cancellation"

  /** The notes written on cancellation: the previous notes (when any), a blank
      line, then the reason. */
  function CancelledNotes(previous: Option<string>, reason: string): (r: string)
    ensures Truthy(previous) ==> r == previous.value + "\n\n" + "Cancellation reason: " + reason
    ensures !Truthy(previous) ==> r == "Cancellation reason: " + reason
  {
    (if Truthy(previous) then previous.value + "\n\n" else "") + "Cancellation reason: " + reason
  }

  /** The previous notes survive as a prefix and the reason ends the new notes. */
  lemma CancelledNotesKeepHistory(previous: Option<string>, reason: string)
    ensures Truthy(previous) ==> StartsWith(CancelledNotes(previous, reason), previous.value)
    ensures var r := CancelledNotes(previous, reason);
      |r| >= |reason| && r[|r| - |reason|..] == reason
  {
    var r := CancelledNotes(previous, reason);
    if Truthy(previous) {
      assert r[..|previous.value|] == previous.value;
    }
  }

  /** Confirming the cancel dialog. `stored` is the database row; the two
      flags are the failures of the update and of the re-read. Returns the
      card state, the stored row afterwards and the toast. */
  function Cancel(st: CardState, stored: SessionRow, updateFails: bool, refetchFails: bool): (r: (CardState, SessionRow, Toast))
    ensures IsBlank(st.reason) ==> r == (st, stored, Toast("Error", ReasonRequired, true))
    ensures !IsBlank(st.reason) && updateFails ==> r == (st, stored, Toast("Error", "Failed to cancel session", true))
    ensures !IsBlank(st.reason) && !updateFails ==>
      var row := r.1;
      && row.status == "cancelled"
      && row.notes == Some(CancelledNotes(st.shown.notes, st.reason))
      && row.id == stored.id && row.studentId == stored.studentId && row.tutorId == stored.tutorId
      && row.subject == stored.subject && row.sessionDate == stored.sessionDate
      && row.startTime == stored.startTime && row.duration == stored.duration
      && !r.0.cancelOpen
      && r.0.reason == st.reason
      && r.0.shown == (if refetchFails then st.shown else row)
      && !r.2.destructive
  {
    if IsBlank(st.reason) then (st, stored, Toast("Error", ReasonRequired, true))
    else if updateFails then (st, stored, Toast("Error", "Failed to cancel session", true))
    else
      var row := stored.(status := "cancelled", notes := Some(CancelledNotes(st.shown.notes, st.reason)));
      (st.(shown := if refetchFails then st.shown else row, cancelOpen := false), row,
       Toast("Session cancelled", "The session has been cancelled successfully", false))
  }

  /** A reason made only of characters `trim()` removes never reaches the
      database: the card and the row stay and the error toast shows. A
      no-break space or an ideographic space counts as blank too. */
  lemma WhitespaceReasonRejected(st: CardState, stored: SessionRow, u: bool, f: bool)
    requires IsBlank(st.reason)
    ensures Cancel(st, stored, u, f) == (st, stored, Toast("Error", ReasonRequired, true))
    ensures Cancel(st.(reason := "\U{00A0}\U{3000}\U{FEFF}"), stored, u, f).1 == stored
  {
  }

  /** Marking the session completed (the button only a tutor sees). */
  function Complete(st: CardState, stored: SessionRow, updateFails: bool, refetchFails: bool): (r: (CardState, SessionRow, Toast))
    ensures updateFails ==> r == (st, stored, Toast("Error", "Failed to mark session as completed", true))
    ensures !updateFails ==> && r.1 == stored.(status := "completed")
                             && r.0.shown == (if refetchFails then st.shown else r.1)
                             && r.0.cancelOpen == st.cancelOpen && r.0.reason == st.reason
  {
    if updateFails then (st, stored, Toast("Error", "Failed to mark session as completed", true))
    else
      var row := stored.(status := "completed");
      (st.(shown := if refetchFails then st.shown else row), row,
       Toast("Session completed", "The session has been marked as completed", false))
  }

  /** Completing twice stores the same row as completing once. */
  lemma CompleteIdempotent(st: CardState, stored: SessionRow, f1: bool, f2: bool)
    ensures var once := Complete(st, stored, false, f1);
      Complete(once.0, once.1, false, f2).1 == once.1
  {
  }

  /** A failed re-read leaves the card showing the previous status although the
      stored row has changed. */
  lemma StaleCardAfterFailedRefetch(st: CardState, stored: SessionRow)
    requires st.shown == stored && stored.status == "scheduled"
    ensures var r := Complete(st, stored, false, true);
      r.0.shown.status == "scheduled" && r.1.status == "completed"
  {
  }
}
