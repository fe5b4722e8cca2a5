/** The tutor's weekly availability card: the time options it offers, and
    adding and removing weekly slots in its local list. */
module TutorAvailability {
  import opened Common
  import opened Strings
  import opened Records
  import opened Clock
  import TimePicker

  /** A weekly slot of the local list. */
  datatype Slot = Slot(id: string, day: string, startTime: string, endTime: string)

  /** The slots the card starts with. */
  const InitialSlots: seq<Slot> := [
    Slot("1", "Monday", "09:00", "12:00"),
    Slot("2", "Monday", "14:00", "17:00"),
    Slot("3", "Wednesday", "10:00", "15:00"),
    Slot("4", "Friday", "13:00", "18:00")
  ]

  const Days: seq<string> := ["Monday", "Tuesday", "Wednesday", "Thursday", "Friday", "Saturday", "Sunday"]

  /** The options of the hours `h` up to but excluding `end`: `HH:00` then
      `HH:30` for each. */
  function OptionsFrom(h: int, end: int): seq<string>
    decreases end - h
  {
    if h >= end then [] else [HourMinute(h, 0), HourMinute(h, 30)] + OptionsFrom(h + 1, end)
  }

  /** `timeOptions`: hours 8 to 19. */
  function TimeOptions(): seq<string> {
    OptionsFrom(8, 20)
  }

  /** The card's own loop produces what the time picker generates for
      half-hour steps. */
  lemma {:induction false} OptionsAreHalfHourPicker(h: int, end: int)
    ensures OptionsFrom(h, end) == TimePicker.Generate(h, end, 30)
    decreases end - h
  {
    if h < end {
      OptionsAreHalfHourPicker(h + 1, end);
      var here := TimePicker.HourTimes(h, 30);
      var rest := TimePicker.Times(h + 1, end, 30);
      assert TimePicker.Times(h, end, 30) == here + rest;
      LabelsConcat(here, rest);
      HalfHourLabels(h);
    } else {
      assert TimePicker.Times(h, end, 30) == [];
    }
  }

  lemma HalfHourLabels(h: int)
    ensures TimePicker.Labels(TimePicker.HourTimes(h, 30)) == [HourMinute(h, 0), HourMinute(h, 30)]
  {
    var a := TimePicker.HourTimes(h, 30);
    var r := TimePicker.Labels(a);
    var x, y := HourMinute(h, 0), HourMinute(h, 30);
    assert |a| == 2;
    assert r[0] == x by {
      TimePicker.LabelAt(a, 0, (h, 0));
    }
    assert r[1] == y by {
      TimePicker.LabelAt(a, 1, (h, 30));
    }
    SeqOfTwo(r, x, y);
  }

  lemma SeqOfTwo(r: seq<string>, x: string, y: string)
    requires |r| == 2 && r[0] == x && r[1] == y
    ensures r == [x, y]
  {
  }

  lemma LabelsConcat(a: seq<(int, int)>, b: seq<(int, int)>)
    ensures TimePicker.Labels(a + b) == TimePicker.Labels(a) + TimePicker.Labels(b)
  {
  }

  /** Two options per hour, from `HH:00` of the first hour to `HH:30` of the
      last; for `timeOptions` (hours 8 to 20) that is 24 options from 08:00 to
      19:30. */
  lemma OptionsCount(h: int, end: int)
    requires h < end
    ensures |OptionsFrom(h, end)| == 2 * (end - h)
  {
    OptionsAreHalfHourPicker(h, end);
    TimePicker.GenerateLength(h, end, 30);
    var n := |TimePicker.Generate(h, end, 30)|;
    assert |TimePicker.Minutes(30)| == 2;
    assert n == (end - h) * 2;
  }

  lemma OptionsFirst(h: int, end: int)
    requires h < end
    ensures var r := OptionsFrom(h, end);
      |r| > 0 && r[0] == HourMinute(h, 0)
  {
    OptionsAreHalfHourPicker(h, end);
    TimePicker.GenerateFirst(h, end, 30);
  }

  lemma OptionsLast(h: int, end: int)
    requires h < end
    ensures var r := OptionsFrom(h, end);
      |r| > 0 && r[|r| - 1] == HourMinute(end - 1, 30)
  {
    OptionsAreHalfHourPicker(h, end);
    TimePicker.GenerateLast(h, end, 30);
  }

  lemma TimeOptionsIncreasing(h: int, end: int)
    requires 0 <= h && end <= 100
    ensures TimePicker.Increasing(OptionsFrom(h, end))
  {
    OptionsAreHalfHourPicker(h, end);
    TimePicker.GenerateIncreasing(h, end, 30);
  }

  /** `timeOptions` itself: 24 options from 08:00 to 19:30, in increasing
      order. */
  lemma TimeOptionsFacts()
    ensures var r := TimeOptions();
      |r| == 24 && r[0] == HourMinute(8, 0) && r[23] == HourMinute(19, 30) && TimePicker.Increasing(r)
  {
    OptionsCount(8, 20);
    OptionsFirst(8, 20);
    OptionsLast(8, 20);
    TimeOptionsIncreasing(8, 20);
  }

  /** The new-slot selects; "" means nothing selected yet. */
  datatype Draft = Draft(day: string, startTime: string, endTime: string)

  const EmptyDraft := Draft("", "", "")

  /** `handleAddTimeSlot`, with `newId` standing for the random id. Returns
      the list, the draft and the toast. */
  function AddSlot(slots: seq<Slot>, draft: Draft, newId: string): (r: (seq<Slot>, Draft, Toast))
    ensures draft.day == "" || draft.startTime == "" || draft.endTime == "" ==>
      r == (slots, draft, Toast("Missing information", "Please select day, start time, and end time", true))
    ensures draft.day != "" && draft.startTime != "" && draft.endTime != "" && !StrLess(draft.startTime, draft.endTime) ==>
      r == (slots, draft, Toast("Invalid time range", "End time must be after start time", true))
    ensures r.0 != slots <==> draft.day != "" && draft.startTime != "" && draft.endTime != "" && StrLess(draft.startTime, draft.endTime)
    ensures r.0 != slots ==> && r.0 == slots + [Slot(newId, draft.day, draft.startTime, draft.endTime)]
                             && r.1 == EmptyDraft && !r.2.destructive
  {
    if draft.day == "" || draft.startTime == "" || draft.endTime == "" then
      (slots, draft, Toast("Missing information", "Please select day, start time, and end time", true))
    else if !StrLess(draft.startTime, draft.endTime) then
      (slots, draft, Toast("Invalid time range", "End time must be after start time", true))
    else
      var added := slots + [Slot(newId, draft.day, draft.startTime, draft.endTime)];
      assert |added| != |slots|;
      (added, EmptyDraft,
       Toast("Time slot added", "Added availability for " + draft.day + " from " + draft.startTime + " to " + draft.endTime, false))
  }

  /** For options picked from the list, the text check is the time check: a
      slot is added exactly when its end is later in the day than its start. */
  lemma AddFollowsTimeOrder(slots: seq<Slot>, day: string, h1: int, m1: int, h2: int, m2: int, newId: string)
    requires day != "" && 0 <= h1 < 100 && 0 <= m1 < 100 && 0 <= h2 < 100 && 0 <= m2 < 100
    ensures var r := AddSlot(slots, Draft(day, HourMinute(h1, m1), HourMinute(h2, m2)), newId);
      r.0 != slots <==> h1 < h2 || (h1 == h2 && m1 < m2)
  {
    HourMinuteOrder(h1, m1, h2, m2);
    PaddedNotEmpty(h1, m1);
    PaddedNotEmpty(h2, m2);
  }

  lemma PaddedNotEmpty(h: int, m: int)
    ensures HourMinute(h, m) != ""
  {
    assert |HourMinute(h, m)| > 0;
  }

  /** No overlap check: the same window can be added twice. */
  lemma DuplicateWindowAccepted(slots: seq<Slot>, d: Draft, id1: string, id2: string)
    requires d.day != "" && d.startTime != "" && d.endTime != "" && StrLess(d.startTime, d.endTime)
    ensures var once := AddSlot(slots, d, id1).0;
      AddSlot(once, d, id2).0 == slots + [Slot(id1, d.day, d.startTime, d.endTime), Slot(id2, d.day, d.startTime, d.endTime)]
  {
  }

  /** `handleRemoveTimeSlot`: every slot with the id goes, the others stay in
      order, and the removal toast shows. */
  function RemoveSlot(slots: seq<Slot>, id: string): (r: (seq<Slot>, Toast))
    ensures forall s :: s in r.0 <==> s in slots && s.id != id
    ensures IsSublist(r.0, slots)
    ensures (forall i :: 0 <= i < |slots| ==> slots[i].id != id) ==> r.0 == slots
    ensures r.1 == Toast("Time slot removed", "The availability slot has been removed", false)
  {
    (Filter(slots, (s: Slot) => s.id != id),
     Toast("Time slot removed", "The availability slot has been removed", false))
  }

  /** Removing a freshly added slot restores the list. */
  lemma RemoveUndoesAdd(slots: seq<Slot>, d: Draft, newId: string)
    requires forall i :: 0 <= i < |slots| ==> slots[i].id != newId
    ensures RemoveSlot(AddSlot(slots, d, newId).0, newId).0 == slots
  {
    var r := AddSlot(slots, d, newId).0;
    if r != slots {
      var p := (s: Slot) => s.id != newId;
      FilterConcat(slots, [Slot(newId, d.day, d.startTime, d.endTime)], p);
    }
  }
}
