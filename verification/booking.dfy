/** The booking dialog: the tutors offered for the chosen subject, the
    pickers that unlock one after another, and the reset after booking.
    Each select holds the text of the chosen id; a day is a day number. */
module Booking {
  import opened Common
  import opened Strings

  /** A tutor of the dialog's built-in list and the subject ids it teaches. */
  datatype Tutor = Tutor(id: int, name: string, subjects: seq<int>)

  const MockTutors: seq<Tutor> := [
    Tutor(1, "Dr. Smith", [1, 2]),
    Tutor(2, "Prof. Johnson", [2, 3]),
    Tutor(3, "Ms. Williams", [3, 4]),
    Tutor(4, "Mr. Davis", [1, 5])
  ]

  /** The eight fixed start times the time select offers. */
  const BookingTimes: seq<string> := ["09:00 AM", "10:00 AM", "11:00 AM", "01:00 PM",
                                      "02:00 PM", "03:00 PM", "04:00 PM", "05:00 PM"]

  /** Whether tutor `t` teaches the subject whose id `parseInt` reads from
      the selected text; a text that is not a number (`NaN`) matches none. */
  predicate Teaches(t: Tutor, subject: string) {
    var n := ParseInt(subject);
    n.Some? && n.value in t.subjects
  }

  /** `filteredTutors`: no subject gives no tutors; otherwise the tutors
      teaching it, in list order. */
  function FilteredTutors(subject: string, tutors: seq<Tutor>): (r: seq<Tutor>)
    ensures subject == "" ==> r == []
    ensures IsSublist(r, tutors)
    ensures subject != "" ==> forall t :: t in r <==> t in tutors && Teaches(t, subject)
  {
    if subject == "" then [] else Filter(tutors, t => Teaches(t, subject))
  }

  /** Choosing subject `id` (the select's value is `id.toString()`) offers
      exactly the tutors whose subject list holds `id`. */
  lemma TutorsForSubjectId(id: int, tutors: seq<Tutor>, t: Tutor)
    ensures t in FilteredTutors(IntToString(id), tutors) <==> t in tutors && id in t.subjects
  {
    ParseIntOfIntToString(id);
  }

  /** The dialog's state. */
  datatype Form = Form(subject: string, tutor: string, date: Option<int>, time: string, open: bool)

  const Initial := Form("", "", None, "", false)

  /** Each picker is enabled once the one before it has a value. */
  predicate TutorPickerEnabled(f: Form) { f.subject != "" }
  predicate DatePickerEnabled(f: Form) { f.tutor != "" }
  predicate TimePickerEnabled(f: Form) { f.date.Some? }

  /** The "Book Session" button: all four fields are set. */
  predicate CanBook(f: Form) {
    f.subject != "" && f.tutor != "" && f.date.Some? && f.time != ""
  }

  /** Picking subject `id` in the subject select: the select reads back
      `id`, and the other pickers and the dialog's `open` flag are kept. */
  function ChooseSubject(f: Form, id: int): (r: Form)
    ensures ParseInt(r.subject) == Some(id)
    ensures r.tutor == f.tutor && r.date == f.date && r.time == f.time && r.open == f.open
  {
    ParseIntOfIntToString(id);
    f.(subject := IntToString(id))
  }

  /** Picking tutor `id`; a disabled select takes no input. Only the tutor
      can change, it reads back `id` once the picker is enabled, and the
      cascade is kept. */
  function ChooseTutor(f: Form, id: int): (r: Form)
    ensures r.subject == f.subject && r.date == f.date && r.time == f.time && r.open == f.open
    ensures TutorPickerEnabled(f) ==> ParseInt(r.tutor) == Some(id)
    ensures r.tutor != f.tutor ==> TutorPickerEnabled(f)
    ensures Cascade(f) ==> Cascade(r)
  {
    ParseIntOfIntToString(id);
    if TutorPickerEnabled(f) then f.(tutor := IntToString(id)) else f
  }

  /** Picking a day (`Some`) or clearing the picked one (`None`) in the date
      picker; days before `today` are disabled. */
  function ChooseDate(f: Form, day: Option<int>, today: int): (r: Form)
    ensures r.subject == f.subject && r.tutor == f.tutor && r.time == f.time && r.open == f.open
    ensures r.date != f.date ==> DatePickerEnabled(f) && r.date == day
    ensures r.date.Some? && r.date != f.date ==> r.date.value >= today
    ensures DatePickerEnabled(f) && (day.None? || day.value >= today) ==> r.date == day
  {
    if !DatePickerEnabled(f) || (day.Some? && day.value < today) then f else f.(date := day)
  }

  /** Picking a start time: only the time can change, and only once a date
      is picked; the cascade is kept. */
  function ChooseTime(f: Form, t: string): (r: Form)
    ensures r.subject == f.subject && r.tutor == f.tutor && r.date == f.date && r.open == f.open
    ensures TimePickerEnabled(f) ==> r.time == t
    ensures r.time != f.time ==> TimePickerEnabled(f)
    ensures Cascade(f) ==> Cascade(r)
  {
    if TimePickerEnabled(f) then f.(time := t) else f
  }

  /** `handleBookSession`, reachable only through the enabled button: the
      dialog closes and no picker past the subject stays enabled; afterwards
      the button is disabled, and a disabled button does nothing, so a
      second press changes nothing. */
  function Book(f: Form): (r: Form)
    ensures CanBook(f) ==> !r.open && !TutorPickerEnabled(r) && !DatePickerEnabled(r)
                           && !TimePickerEnabled(r) && r.subject == ""
    ensures CanBook(f) ==> Cascade(r)
    ensures !CanBook(f) ==> r == f
    ensures !CanBook(r)
  {
    if CanBook(f) then Initial else f
  }

  /** The cascade the disabled pickers keep: a tutor only after a subject,
      a date only after a tutor. */
  predicate Cascade(f: Form) {
    (f.tutor != "" ==> f.subject != "") && (f.date.Some? ==> f.tutor != "")
  }

  /** One user action in the dialog. */
  datatype Action = PickSubject(id: int) | PickTutor(id: int) | PickDate(day: Option<int>)
                  | PickTime(t: string) | PressBook

  function Apply(f: Form, a: Action, today: int): Form {
    match a
    case PickSubject(id) => ChooseSubject(f, id)
    case PickTutor(id) => ChooseTutor(f, id)
    case PickDate(day) => ChooseDate(f, day, today)
    case PickTime(t) => ChooseTime(f, t)
    case PressBook => Book(f)
  }

  /** Every action keeps the cascade. */
  lemma ApplyKeepsCascade(f: Form, a: Action, today: int)
    requires Cascade(f)
    ensures Cascade(Apply(f, a, today))
  {
  }

  /** Any run of actions from the empty dialog keeps the cascade. */
  lemma {:induction false} RunKeepsCascade(f: Form, actions: seq<Action>, today: int)
    requires Cascade(f)
    ensures Cascade(Run(f, actions, today))
    decreases |actions|
  {
    if |actions| > 0 {
      ApplyKeepsCascade(f, actions[0], today);
      RunKeepsCascade(Apply(f, actions[0], today), actions[1..], today);
    }
  }

  function Run(f: Form, actions: seq<Action>, today: int): Form
    decreases |actions|
  {
    if |actions| == 0 then f else Run(Apply(f, actions[0], today), actions[1..], today)
  }

  lemma InitialCascade()
    ensures Cascade(Initial) && !CanBook(Initial)
  {
  }

  /** Changing the subject keeps the chosen tutor, so the dialog can book a
      tutor who does not teach the new subject. */
  lemma StaleTutorKept(f: Form, id: int)
    requires CanBook(f)
    ensures CanBook(ChooseSubject(f, id)) && ChooseSubject(f, id).tutor == f.tutor
  {
  }

  /** Booking twice in a row books once: the second press finds the dialog
      already cleared. */
  lemma BookClears(f: Form)
    requires CanBook(f)
    ensures !CanBook(Book(f)) && Book(Book(f)) == Book(f)
  {
  }
}
