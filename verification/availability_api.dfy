/** `GET /api/tutors/availability` (a tutor's weekly slots and upcoming
    bookings) and `POST /api/tutors/availability` (a tutor adds a slot). */
module AvailabilityApi {
  import opened Common
  import opened Strings
  import opened Records

  /** A booked session as the listing reports it. */
  datatype Booked = Booked(sessionDate: string, startTime: string, duration: int)

  datatype AvailabilityView = AvailabilityView(availability: seq<AvailabilityRow>, booked: seq<Booked>)

  const TutorIdRequired := "Tutor ID is required"
  const TutorsOnly := "Only tutors can set availability"
  const MissingFields := "Missing required fields"
  const CreateFailed := "Failed to create availability slot"

  /** A session of `tutorId` dated `today` or later (ISO dates compare as text). */
  predicate UpcomingFor(tutorId: string, today: string, row: SessionRow) {
    row.tutorId == tutorId && !StrLess(row.sessionDate, today)
  }

  function BookedOf(rows: seq<SessionRow>): (r: seq<Booked>)
    ensures |r| == |rows|
    ensures forall i :: 0 <= i < |r| ==> r[i] == Booked(rows[i].sessionDate, rows[i].startTime, rows[i].duration)
  {
    seq(|rows|, i requires 0 <= i < |rows| => Booked(rows[i].sessionDate, rows[i].startTime, rows[i].duration))
  }

  /** `today` is the UTC date of the request, `yyyy-mm-dd`; the two errors
      are the messages of the two failed queries. */
  function GetAvailability(
    caller: Option<Caller>, tutorId: Option<string>, snap: Snapshot, today: string,
    availabilityError: Option<string>, sessionsError: Option<string>): (r: Response<AvailabilityView>)
    ensures caller.None? ==> r == Error(401, Unauthorized)
    ensures caller.Some? && !Truthy(tutorId) ==> r == Error(400, TutorIdRequired)
    ensures r.Ok? <==> caller.Some? && Truthy(tutorId) && availabilityError.None? && sessionsError.None?
    ensures caller.Some? && Truthy(tutorId) && availabilityError.Some? ==> r == Error(500, availabilityError.value)
    ensures caller.Some? && Truthy(tutorId) && availabilityError.None? && sessionsError.Some? ==> r == Error(500, sessionsError.value)
    ensures r.Ok? ==> && r.status == 200
                      && IsSublist(r.body.availability, snap.availability)
                      && (forall a :: a in r.body.availability <==> a in snap.availability && a.tutorId == tutorId.value)
    ensures r.Ok? ==> forall b :: b in r.body.booked <==>
      exists i :: 0 <= i < |snap.sessions| && UpcomingFor(tutorId.value, today, snap.sessions[i])
        && b == Booked(snap.sessions[i].sessionDate, snap.sessions[i].startTime, snap.sessions[i].duration)
  {
    if caller.None? then Error(401, Unauthorized)
    else if !Truthy(tutorId) then Error(400, TutorIdRequired)
    else if availabilityError.Some? then Error(500, availabilityError.value)
    else if sessionsError.Some? then Error(500, sessionsError.value)
    else
      var t := tutorId.value;
      var booked := BookedOf(Upcoming(snap.sessions, t, today));
      BookedMembers(snap.sessions, t, today);
      Ok(200, AvailabilityView(Filter(snap.availability, (a: AvailabilityRow) => a.tutorId == t), booked))
  }

  /** The tutor's sessions dated `today` or later, in table order. */
  function Upcoming(sessions: seq<SessionRow>, tutorId: string, today: string): (r: seq<SessionRow>)
    ensures forall row :: row in r <==> row in sessions && UpcomingFor(tutorId, today, row)
  {
    Filter(sessions, (row: SessionRow) => UpcomingFor(tutorId, today, row))
  }

  /** The booked entries are those of the upcoming sessions. */
  lemma BookedMembers(sessions: seq<SessionRow>, t: string, today: string)
    ensures var booked := BookedOf(Upcoming(sessions, t, today));
      forall b :: b in booked <==>
        exists i :: 0 <= i < |sessions| && UpcomingFor(t, today, sessions[i])
          && b == Booked(sessions[i].sessionDate, sessions[i].startTime, sessions[i].duration)
  {
    var booked := BookedOf(Upcoming(sessions, t, today));
    forall b
      ensures b in booked <==>
        exists i :: 0 <= i < |sessions| && UpcomingFor(t, today, sessions[i])
          && b == Booked(sessions[i].sessionDate, sessions[i].startTime, sessions[i].duration)
    {
      if b in booked {
        BookedSound(sessions, t, today, b);
      }
      if exists i :: 0 <= i < |sessions| && UpcomingFor(t, today, sessions[i])
          && b == Booked(sessions[i].sessionDate, sessions[i].startTime, sessions[i].duration) {
        var i :| 0 <= i < |sessions| && UpcomingFor(t, today, sessions[i])
          && b == Booked(sessions[i].sessionDate, sessions[i].startTime, sessions[i].duration);
        BookedComplete(sessions, t, today, i);
      }
    }
  }

  lemma BookedSound(sessions: seq<SessionRow>, t: string, today: string, b: Booked)
    requires b in BookedOf(Upcoming(sessions, t, today))
    ensures exists i :: 0 <= i < |sessions| && UpcomingFor(t, today, sessions[i])
                        && b == Booked(sessions[i].sessionDate, sessions[i].startTime, sessions[i].duration)
  {
    var upcoming := Upcoming(sessions, t, today);
    var booked := BookedOf(upcoming);
    var j :| 0 <= j < |booked| && booked[j] == b;
    assert upcoming[j] in sessions;
    var i :| 0 <= i < |sessions| && sessions[i] == upcoming[j];
  }

  lemma BookedComplete(sessions: seq<SessionRow>, t: string, today: string, i: int)
    requires 0 <= i < |sessions| && UpcomingFor(t, today, sessions[i])
    ensures Booked(sessions[i].sessionDate, sessions[i].startTime, sessions[i].duration)
      in BookedOf(Upcoming(sessions, t, today))
  {
    var upcoming := Upcoming(sessions, t, today);
    assert sessions[i] in upcoming;
    var j :| 0 <= j < |upcoming| && upcoming[j] == sessions[i];
    assert BookedOf(upcoming)[j] == Booked(sessions[i].sessionDate, sessions[i].startTime, sessions[i].duration);
  }

  /** A session dated today is still reported as booked; yesterday's is not. */
  lemma TodayCountsAsUpcoming(t: string, row: SessionRow, today: string)
    requires row.tutorId == t
    ensures row.sessionDate == today ==> UpcomingFor(t, today, row)
    ensures StrLess(row.sessionDate, today) ==> !UpcomingFor(t, today, row)
  {
    StrLessIrreflexive(today);
  }

  /** The slot body. `dayOfWeek` is checked only against `undefined`. */
  datatype SlotRequest = SlotRequest(dayOfWeek: Field<int>, startTime: Option<string>, endTime: Option<string>)

  predicate SlotComplete(b: SlotRequest) {
    !b.dayOfWeek.Absent? && Truthy(b.startTime) && Truthy(b.endTime)
  }

  function DayValue(d: Field<int>): Option<int> {
    if d.Present? then Some(d.value) else None
  }

  /** Returns the reply and the `tutor_availability` table after the call. */
  function PostAvailability(
    caller: Option<Caller>, body: Option<SlotRequest>, table: seq<AvailabilityRow>,
    newId: string, insertError: Option<string>): (r: (Response<AvailabilityRow>, seq<AvailabilityRow>))
    ensures caller.None? ==> r.0 == Error(401, Unauthorized)
    ensures caller.Some? && EffectiveRole(caller.value) != "tutor" ==> r.0 == Error(403, TutorsOnly)
    ensures caller.Some? && EffectiveRole(caller.value) == "tutor" && body.None? ==> r.0 == Error(500, CreateFailed)
    ensures caller.Some? && EffectiveRole(caller.value) == "tutor" && body.Some? && !SlotComplete(body.value)
      ==> r.0 == Error(400, MissingFields)
    ensures r.0.Ok? <==> (caller.Some? && EffectiveRole(caller.value) == "tutor" && body.Some?
                          && SlotComplete(body.value) && insertError.None?)
    ensures r.0.Ok? ==> && r.0.status == 201
                        && r.0.body == AvailabilityRow(newId, caller.value.id, DayValue(body.value.dayOfWeek),
                                                       body.value.startTime.value, body.value.endTime.value)
                        && r.1 == table + [r.0.body]
    ensures !r.0.Ok? ==> r.1 == table
  {
    if caller.None? then (Error(401, Unauthorized), table)
    else if EffectiveRole(caller.value) != "tutor" then (Error(403, TutorsOnly), table)
    else if body.None? then (Error(500, CreateFailed), table)
    else
      var b := body.value;
      if !SlotComplete(b) then (Error(400, MissingFields), table)
      else if insertError.Some? then (Error(500, insertError.value), table)
      else
        var row := AvailabilityRow(newId, caller.value.id, DayValue(b.dayOfWeek), b.startTime.value, b.endTime.value);
        (Ok(201, row), table + [row])
  }

  /** The route's own check accepts Sunday (day 0) and lets an explicit
      `null` day through to the insert: only a missing day is rejected.
      The start and end are not compared. */
  lemma DayChecks(c: Caller, s: string, e: string, table: seq<AvailabilityRow>, id: string)
    requires EffectiveRole(c) == "tutor" && s != "" && e != ""
    ensures PostAvailability(Some(c), Some(SlotRequest(Present(0), Some(s), Some(e))), table, id, None).0.Ok?
    ensures PostAvailability(Some(c), Some(SlotRequest(Null, Some(s), Some(e))), table, id, None).0.Ok?
    ensures PostAvailability(Some(c), Some(SlotRequest(Absent, Some(s), Some(e))), table, id, None).0 == Error(400, MissingFields)
  {
  }

  /** The role check precedes reading the body: a non-tutor gets 403 even
      for a body that does not parse. */
  lemma RoleCheckedBeforeBody(c: Caller, table: seq<AvailabilityRow>, id: string)
    requires EffectiveRole(c) != "tutor"
    ensures PostAvailability(Some(c), None, table, id, None).0 == Error(403, TutorsOnly)
  {
  }

  /** A slot a tutor stores is then returned, for that tutor's id, to any
      signed-in caller, next to the slots stored before it. */
  lemma PostedSlotListed(c: Caller, b: SlotRequest, snap: Snapshot, newId: string, viewer: Caller, today: string)
    requires c.id != ""
    requires PostAvailability(Some(c), Some(b), snap.availability, newId, None).0.Ok?
    ensures var posted := PostAvailability(Some(c), Some(b), snap.availability, newId, None);
      var r := GetAvailability(Some(viewer), Some(c.id), snap.(availability := posted.1), today, None, None);
      && r.Ok?
      && posted.0.body in r.body.availability
      && forall a :: a in snap.availability && a.tutorId == c.id ==> a in r.body.availability
  {
    var posted := PostAvailability(Some(c), Some(b), snap.availability, newId, None);
    assert posted.1[|snap.availability|] == posted.0.body;
  }
}
