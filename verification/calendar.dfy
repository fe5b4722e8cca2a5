/** The session calendar: which mock sessions a role sees, the Monday-based
    week around the selected day, the half-hour grid of the day and week
    views, matching a session to a grid cell, and stepping by day or week.
    A calendar day is a day number counted from 1970-01-01, a Thursday. */
module Calendar {
  import opened Common
  import opened Strings

  /** A session of the calendar's built-in list: its day, and its start as
      hour and minute of that day. */
  datatype MockSession = MockSession(id: int, subject: string, tutor: string, student: string,
                                     day: int, hour: int, minute: int, duration: int)

  /** The five sessions of June 2023 the calendar shows (June 15 is day
      19523). */
  const MockSessions: seq<MockSession> := [
    MockSession(1, "Mathematics", "Dr. Smith", "Alex Johnson", 19523, 15, 0, 60),
    MockSession(2, "Physics", "Prof. Johnson", "Emma Williams", 19525, 16, 30, 45),
    MockSession(3, "Chemistry", "Ms. Williams", "Michael Brown", 19528, 14, 0, 60),
    MockSession(4, "Biology", "Dr. Davis", "Sophia Davis", 19524, 10, 0, 90),
    MockSession(5, "English", "Ms. Miller", "Alex Johnson", 19526, 13, 0, 60)
  ]

  /** The current student and tutor the calendar stands in for. */
  const CurrentStudent := "Alex Johnson"
  const CurrentTutor := "Dr. Smith"

  predicate Sees(role: string, s: MockSession) {
    if role == "student" then s.student == CurrentStudent
    else if role == "tutor" then s.tutor == CurrentTutor
    else true
  }

  /** `filteredSessions`: a student sees the current student's sessions, a
      tutor the current tutor's, every other role all of them, in list
      order. */
  function Visible(role: string, sessions: seq<MockSession>): (r: seq<MockSession>)
    ensures IsSublist(r, sessions)
    ensures role == "student" ==> forall s :: s in r <==> s in sessions && s.student == CurrentStudent
    ensures role == "tutor" ==> forall s :: s in r <==> s in sessions && s.tutor == CurrentTutor
    ensures role != "student" && role != "tutor" ==> r == sessions
  {
    Filter(sessions, s => Sees(role, s))
  }

  /** `getDay()`: 0 for Sunday up to 6 for Saturday. */
  function WeekDay(d: int): (w: int)
    ensures 0 <= w < 7
  {
    (d + 4) % 7
  }

  lemma WeekDayShift(d: int, q: int, k: int)
    requires d + 4 == 7 * q + 1 && 0 <= k < 7
    ensures WeekDay(d + k) == (1 + k) % 7
  {
    assert d + k + 4 == 7 * q + (1 + k);
    if k == 6 {
      assert d + k + 4 == 7 * (q + 1);
    }
  }

  /** The Monday of `getWeekDates`: the day itself minus its weekday, plus
      one, except that a Sunday goes back six days. */
  function MondayOf(d: int): (m: int)
    ensures WeekDay(m) == 1
    ensures m <= d <= m + 6
    ensures WeekDay(d) == 0 <==> d == m + 6
  {
    var wd := WeekDay(d);
    var m := d - wd + (if wd == 0 then -6 else 1);
    var q := (d + 4) / 7;
    assert d + 4 == 7 * q + wd;
    assert m + 4 == 7 * q + 1 || m + 4 == 7 * (q - 1) + 1;
    var q' :| m + 4 == 7 * q' + 1;
    WeekDayShift(m, q', 0);
    WeekDayShift(m, q', d - m);
    m
  }

  /** `getWeekDates`: seven consecutive days starting on a Monday. */
  function WeekDates(d: int): (r: seq<int>)
    ensures |r| == 7
    ensures forall i :: 0 <= i < 7 ==> r[i] == r[0] + i
    ensures WeekDay(r[0]) == 1
    ensures d in r
    ensures WeekDay(d) == 0 ==> r[6] == d
  {
    var m := MondayOf(d);
    var r := seq(7, i requires 0 <= i < 7 => m + i);
    assert r[d - m] == d;
    r
  }

  /** The days of the week run Monday to Sunday. */
  lemma WeekRunsMondayToSunday(d: int, i: int)
    requires 0 <= i < 7
    ensures WeekDay(WeekDates(d)[i]) == (i + 1) % 7
  {
    var m := WeekDates(d)[0];
    var q := (m + 4) / 7;
    assert m + 4 == 7 * q + 1;
    WeekDayShift(m, q, i);
  }

  /** Every day of a week has that same week: the week is determined by any
      of its days. */
  lemma {:induction false} WeekOfItsDays(d: int, i: int)
    requires 0 <= i < 7
    ensures WeekDates(WeekDates(d)[i]) == WeekDates(d)
  {
    var m := WeekDates(d)[0];
    var e := m + i;
    var q := (m + 4) / 7;
    assert m + 4 == 7 * q + 1;
    WeekDayShift(m, q, i);
    assert MondayOf(e) == m;
  }

  /** Two days share a week exactly when they have the same Monday. */
  lemma SameWeekIffSameMonday(d: int, e: int)
    ensures e in WeekDates(d) <==> MondayOf(e) == MondayOf(d)
  {
    var r := WeekDates(d);
    if e in r {
      var i :| 0 <= i < 7 && r[i] == e;
      WeekOfItsDays(d, i);
    }
    if MondayOf(e) == MondayOf(d) {
      assert WeekDates(e) == r;
    }
  }

  /** The views the calendar offers. */
  datatype View = DayView | WeekView | MonthView

  /** The distance one arrow press moves in a day or week view. */
  function Stride(view: View): (n: int)
    requires view != MonthView
    ensures n > 0
  {
    if view == DayView then 1 else 7
  }

  /** `navigateNext` and `navigatePrevious` in the day and week views. */
  function Next(d: int, view: View): (r: int)
    requires view != MonthView
    ensures view == DayView ==> r == d + 1
    ensures view == WeekView ==> r == d + 7
  {
    d + Stride(view)
  }

  function Previous(d: int, view: View): (r: int)
    requires view != MonthView
    ensures view == DayView ==> r == d - 1
    ensures view == WeekView ==> r == d - 7
  {
    d - Stride(view)
  }

  /** The two arrows undo each other. */
  lemma NavigationUndoes(d: int, view: View)
    requires view != MonthView
    ensures Previous(Next(d, view), view) == d
    ensures Next(Previous(d, view), view) == d
  {
  }

  /** Stepping a week keeps the weekday and moves the whole week by seven
      days; stepping a day from a Sunday enters the next week. */
  lemma WeekStepShiftsWeek(d: int, i: int)
    requires 0 <= i < 7
    ensures WeekDay(Next(d, WeekView)) == WeekDay(d)
    ensures WeekDates(Next(d, WeekView))[i] == WeekDates(d)[i] + 7
  {
    var q := (d + 4) / 7;
    assert d + 7 + 4 == 7 * (q + 1) + WeekDay(d);
    assert WeekDay(d + 7) == WeekDay(d);
    assert MondayOf(d + 7) == MondayOf(d) + 7;
    assert Next(d, WeekView) == d + 7;
  }

  lemma SundayStepsIntoNextWeek(d: int)
    requires WeekDay(d) == 0
    ensures WeekDates(Next(d, DayView))[0] == Next(d, DayView)
    ensures WeekDates(Next(d, DayView))[0] == WeekDates(d)[0] + 7
  {
    var q := (d + 4) / 7;
    assert d + 1 + 4 == 7 * q + 1;
  }

  /** The text of a grid cell: the hour without padding, then ":00" or
      ":30". */
  function SlotText(hour: int, minute: int): string {
    IntToString(hour) + (if minute == 0 then ":00" else ":30")
  }

  /** The cells for the hours `h` up to but excluding `end`, as hour and
      minute, in the order the loop pushes them. */
  function HourCells(h: int, end: int): seq<(int, int)>
    decreases end - h
  {
    if h >= end then [] else [(h, 0), (h, 30)] + HourCells(h + 1, end)
  }

  /** `timeSlots`: the hours 8 to 19, each on the hour and at half past. */
  function TimeSlots(): seq<string> {
    var cells := HourCells(8, 20);
    seq(|cells|, i requires 0 <= i < |cells| => SlotText(cells[i].0, cells[i].1))
  }

  /** Two cells per hour. */
  lemma {:induction false} HourCellsLength(h: int, end: int)
    requires h <= end
    ensures |HourCells(h, end)| == 2 * (end - h)
    decreases end - h
  {
    if h < end {
      HourCellsLength(h + 1, end);
    }
  }

  /** Hour `h + j` owns cells `2 * j` (on the hour) and `2 * j + 1` (half
      past). */
  lemma {:induction false} HourCellsPair(h: int, end: int, j: int)
    requires h <= end && 0 <= j < end - h
    ensures |HourCells(h, end)| == 2 * (end - h)
    ensures HourCells(h, end)[2 * j] == (h + j, 0)
    ensures HourCells(h, end)[2 * j + 1] == (h + j, 30)
    decreases end - h
  {
    HourCellsLength(h, end);
    var rest := HourCells(h + 1, end);
    var r := HourCells(h, end);
    assert r == [(h, 0), (h, 30)] + rest;
    if j > 0 {
      HourCellsPair(h + 1, end, j - 1);
      assert r[2 * j] == rest[2 * (j - 1)];
      assert r[2 * j + 1] == rest[2 * (j - 1) + 1];
    }
  }

  /** In hour order: cell `k` is hour `8 + k / 2`, on the hour for even `k`
      and at half past for odd `k`. */
  lemma SlotsAt(k: int)
    requires 0 <= k < 24
    ensures |TimeSlots()| == 24
    ensures TimeSlots()[k] == SlotText(8 + k / 2, if k % 2 == 0 then 0 else 30)
  {
    var j := k / 2;
    HourCellsPair(8, 20, j);
    if k % 2 == 0 {
      assert k == 2 * j;
    } else {
      assert k == 2 * j + 1;
    }
  }

  /** The calendar offers 24 cells, from "8:00" to "19:30". */
  lemma TimeSlotsEnds()
    ensures |TimeSlots()| == 24
    ensures TimeSlots()[0] == SlotText(8, 0) && TimeSlots()[23] == SlotText(19, 30)
  {
    SlotsAt(0);
    SlotsAt(23);
  }

  lemma EndTexts()
    ensures SlotText(8, 0) == "8:00" && SlotText(19, 30) == "19:30"
  {
    assert IntToString(8) == "8";
    assert NatToString(1) == "1";
    assert IntToString(19) == "19";
  }

  /** Every cell is an hour from 8 to 19 on the hour or at half past, and
      every such time has a cell. */
  lemma TimeSlotsContents(t: string)
    ensures t in TimeSlots() <==> exists hour, minute :: 8 <= hour < 20 && (minute == 0 || minute == 30)
                                                         && t == SlotText(hour, minute)
  {
    if t in TimeSlots() {
      SlotIsTime(t);
    }
    if exists hour, minute :: 8 <= hour < 20 && (minute == 0 || minute == 30) && t == SlotText(hour, minute) {
      var hour, minute :| 8 <= hour < 20 && (minute == 0 || minute == 30) && t == SlotText(hour, minute);
      TimeIsSlot(hour, minute);
    }
  }

  lemma SlotIsTime(t: string)
    requires t in TimeSlots()
    ensures exists hour, minute :: 8 <= hour < 20 && (minute == 0 || minute == 30) && t == SlotText(hour, minute)
  {
    var r := TimeSlots();
    var k :| 0 <= k < |r| && r[k] == t;
    SlotsAt(k);
    var hour, minute := 8 + k / 2, if k % 2 == 0 then 0 else 30;
    assert t == SlotText(hour, minute);
  }

  lemma TimeIsSlot(hour: int, minute: int)
    requires 8 <= hour < 20 && (minute == 0 || minute == 30)
    ensures SlotText(hour, minute) in TimeSlots()
  {
    var k := 2 * (hour - 8) + (if minute == 0 then 0 else 1);
    assert k / 2 == hour - 8 && (k % 2 == 0 <==> minute == 0);
    SlotsAt(k);
  }

  /** `timeSlot.split(":").map(Number)`, keeping the first two parts; a part
      that is not a number, or is missing, becomes `None` (`NaN`). */
  function ParseSlot(t: string): (r: (Option<int>, Option<int>))
    ensures r.0.Some? ==> r.0.value >= 0
    ensures r.1.Some? ==> r.1.value >= 0
  {
    var parts := SplitColon(t);
    (match NumberOf(parts.0) case Some(n) => Some(n) case None => None,
     if parts.1.None? then None else match NumberOf(parts.1.value) case Some(n) => Some(n) case None => None)
  }

  lemma {:induction false} SplitColonNone(b: string)
    requires ':' !in b
    ensures SplitColon(b) == (b, None)
  {
    if |b| > 0 {
      SplitColonNone(b[1..]);
      assert b == [b[0]] + b[1..];
    }
  }

  /** Splitting `a + ":" + b` gives back `a` and `b` when neither holds a
      colon. */
  lemma {:induction false} SplitColonJoin(a: string, b: string)
    requires ':' !in a && ':' !in b
    ensures SplitColon(a + ":" + b) == (a, Some(b))
  {
    var t := a + ":" + b;
    if |a| == 0 {
      assert t == [':'] + b;
      assert t[1..] == b;
      SplitColonNone(b);
    } else {
      assert t[0] == a[0];
      assert t[1..] == a[1..] + ":" + b;
      SplitColonJoin(a[1..], b);
      assert a == [a[0]] + a[1..];
    }
  }

  lemma NoColonInDigits(s: string)
    requires AllDigits(s)
    ensures ':' !in s
  {
    forall i | 0 <= i < |s|
      ensures s[i] != ':'
    {
      assert IsDigit(s[i]);
    }
  }

  /** Reading a cell back gives the hour and minute it was written from. */
  lemma ParseSlotText(hour: int, minute: int)
    requires 0 <= hour && (minute == 0 || minute == 30)
    ensures ParseSlot(SlotText(hour, minute)) == (Some(hour), Some(minute))
  {
    var a := IntToString(hour);
    var b: string := if minute == 0 then "00" else "30";
    assert AllDigits(b);
    NoColonInDigits(a);
    NoColonInDigits(b);
    SplitColonJoin(a, b);
    assert SlotText(hour, minute) == a + ":" + b;
    DigitsValueOfNatToString(hour);
    assert DigitsValue(b) == minute by {
      assert DigitsValue(b) == DigitValue(b[0]) * 10 + DigitValue(b[1]) by {
        DigitsValueFront(b);
        assert b[1..] == [b[1]];
        DigitsValueFront(b[1..]);
      }
    }
  }

  /** A session sits in the cell of (day, hour, minute) when all three match;
      `None` (`NaN`) matches nothing. */
  predicate AtSlot(s: MockSession, day: int, hour: Option<int>, minute: Option<int>) {
    s.day == day && hour == Some(s.hour) && minute == Some(s.minute)
  }

  /** `find`: the first session in the cell, if any. */
  function FindAt(sessions: seq<MockSession>, day: int, hour: Option<int>, minute: Option<int>): (r: Option<MockSession>)
    ensures r.None? <==> forall s :: s in sessions ==> !AtSlot(s, day, hour, minute)
    ensures r.Some? ==> exists i :: 0 <= i < |sessions| && sessions[i] == r.value
                                    && AtSlot(r.value, day, hour, minute)
                                    && forall j :: 0 <= j < i ==> !AtSlot(sessions[j], day, hour, minute)
  {
    if |sessions| == 0 then None
    else if AtSlot(sessions[0], day, hour, minute) then Some(sessions[0])
    else
      var r := FindAt(sessions[1..], day, hour, minute);
      assert forall s :: s in sessions ==> s == sessions[0] || s in sessions[1..];
      if r.Some? then
        var i :| 0 <= i < |sessions[1..]| && sessions[1..][i] == r.value
                 && AtSlot(r.value, day, hour, minute)
                 && forall j :: 0 <= j < i ==> !AtSlot(sessions[1..][j], day, hour, minute);
        assert sessions[i + 1] == r.value;
        assert forall j :: 0 < j < i + 1 ==> !AtSlot(sessions[j], day, hour, minute) by {
          forall j | 0 < j < i + 1 ensures !AtSlot(sessions[j], day, hour, minute) {
            assert sessions[j] == sessions[1..][j - 1];
          }
        }
        r
      else r
  }

  /** `getSessionForTimeSlot`. */
  function SessionForTimeSlot(sessions: seq<MockSession>, day: int, slot: string): Option<MockSession> {
    var p := ParseSlot(slot);
    FindAt(sessions, day, p.0, p.1)
  }

  /** A cell of the grid finds a session exactly when some session starts on
      that day at that hour and minute, and the first such one. */
  lemma CellFindsItsSession(sessions: seq<MockSession>, day: int, hour: int, minute: int)
    requires 0 <= hour && (minute == 0 || minute == 30)
    ensures var r := SessionForTimeSlot(sessions, day, SlotText(hour, minute));
      && (r.Some? <==> exists s :: s in sessions && s.day == day && s.hour == hour && s.minute == minute)
      && (r.Some? ==> r.value.day == day && r.value.hour == hour && r.value.minute == minute)
  {
    ParseSlotText(hour, minute);
  }

  /** A session that starts off the half-hour grid (say 15:15) appears in no
      cell of the day or week view. */
  lemma OffGridNeverShown(sessions: seq<MockSession>, day: int, s: MockSession, t: string)
    requires s.minute != 0 && s.minute != 30
    requires t in TimeSlots()
    ensures SessionForTimeSlot(sessions, day, t) != Some(s)
  {
    TimeSlotsContents(t);
    var hour, minute :| 8 <= hour < 20 && (minute == 0 || minute == 30) && t == SlotText(hour, minute);
    CellFindsItsSession(sessions, day, hour, minute);
  }

  /** `getSessionsForDate`: the sessions on that calendar day, in order. */
  function SessionsForDate(sessions: seq<MockSession>, day: int): (r: seq<MockSession>)
    ensures IsSublist(r, sessions)
    ensures forall s :: s in r <==> s in sessions && s.day == day
  {
    Filter(sessions, (s: MockSession) => s.day == day)
  }

  /** What a cell shows is also listed for its day in the month view. */
  lemma CellSessionListedForDay(sessions: seq<MockSession>, day: int, slot: string)
    requires SessionForTimeSlot(sessions, day, slot).Some?
    ensures SessionForTimeSlot(sessions, day, slot).value in SessionsForDate(sessions, day)
  {
  }

}
