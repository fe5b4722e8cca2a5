/** The four-step tutor onboarding wizard: personal details, qualifications
    and subjects, availability, documents. Each step's fields can be edited
    only while that step is shown; "Next" checks the current step. */
module TutorOnboarding {
  import opened Common
  import opened Records

  datatype Documents = Documents(resume: bool, certification: bool, backgroundCheck: bool)

  datatype DocumentKey = Resume | Certification | BackgroundCheck

  datatype FormData = FormData(
    fullName: string,
    email: string,
    phone: string,
    education: string,
    experience: string,
    subjects: seq<string>,
    availability: seq<string>,
    documents: Documents)

  const EmptyForm := FormData("", "", "", "", "", [], [], Documents(false, false, false))

  /** The text inputs, by their `name` attribute. */
  datatype TextField = FullName | Email | Phone | Education | Experience

  /** The step that shows a text input. */
  function FieldStep(f: TextField): int {
    match f
    case FullName => 1
    case Email => 1
    case Phone => 1
    case Education => 2
    case Experience => 2
  }

  /** The text held by an input. */
  function FieldValue(form: FormData, f: TextField): string {
    match f
    case FullName => form.fullName
    case Email => form.email
    case Phone => form.phone
    case Education => form.education
    case Experience => form.experience
  }

  /** `handleInputChange`: the input reads back what was typed, and every
      other input, list and document flag keeps its value. */
  function Input(form: FormData, f: TextField, value: string): (r: FormData)
    ensures FieldValue(r, f) == value
    ensures forall g :: g != f ==> FieldValue(r, g) == FieldValue(form, g)
    ensures r.subjects == form.subjects && r.availability == form.availability
    ensures r.documents == form.documents
  {
    match f
    case FullName => form.(fullName := value)
    case Email => form.(email := value)
    case Phone => form.(phone := value)
    case Education => form.(education := value)
    case Experience => form.(experience := value)
  }

  /** Adding an item that is absent (at the end), removing every copy of one
      that is present. */
  function Toggle(list: seq<string>, item: string): (r: seq<string>)
    ensures item in r <==> item !in list
    ensures forall x :: x != item ==> (x in r <==> x in list)
    ensures item !in list ==> r == list + [item]
    ensures item in list ==> IsSublist(r, list)
  {
    if item in list then Filter(list, (x: string) => x != item) else list + [item]
  }

  /** Toggling twice restores membership; for an absent item it restores the
      list itself. */
  lemma ToggleTwice(list: seq<string>, item: string)
    ensures forall x :: x in Toggle(Toggle(list, item), item) <==> x in list
    ensures item !in list ==> Toggle(Toggle(list, item), item) == list
  {
    if item !in list {
      var p := (x: string) => x != item;
      FilterConcat(list, [item], p);
      assert Filter([item], p) == [];
    }
  }

  /** A list without repeats stays without repeats. */
  lemma ToggleKeepsDistinct(list: seq<string>, item: string)
    requires forall i, j :: 0 <= i < j < |list| ==> list[i] != list[j]
    ensures var r := Toggle(list, item); forall i, j :: 0 <= i < j < |r| ==> r[i] != r[j]
  {
    if item in list {
      var r := Toggle(list, item);
      SublistDistinct(r, list);
    }
  }

  lemma {:induction false} SublistDistinct(a: seq<string>, b: seq<string>)
    requires IsSublist(a, b)
    requires forall i, j :: 0 <= i < j < |b| ==> b[i] != b[j]
    ensures forall i, j :: 0 <= i < j < |a| ==> a[i] != a[j]
    decreases |b|
  {
    if |a| > 0 && |b| > 0 {
      assert forall i, j :: 0 <= i < j < |b[1..]| ==> b[1..][i] != b[1..][j] by {
        forall i, j | 0 <= i < j < |b[1..]| ensures b[1..][i] != b[1..][j] {
          assert b[1..][i] == b[i + 1] && b[1..][j] == b[j + 1];
        }
      }
      if a[0] == b[0] {
        SublistDistinct(a[1..], b[1..]);
        SublistMembers(a[1..], b[1..]);
        forall j | 0 < j < |a| ensures a[0] != a[j] {
          assert a[j] == a[1..][j - 1];
          assert a[j] in b[1..];
          var k :| 0 <= k < |b[1..]| && b[1..][k] == a[j];
          assert b[k + 1] == a[j];
        }
        forall i, j | 0 < i < j < |a| ensures a[i] != a[j] {
          assert a[i] == a[1..][i - 1] && a[j] == a[1..][j - 1];
        }
      } else {
        SublistDistinct(a, b[1..]);
      }
    }
  }

  lemma {:induction false} SublistMembers(a: seq<string>, b: seq<string>)
    requires IsSublist(a, b)
    ensures forall x :: x in a ==> x in b
    decreases |b|
  {
    if |a| > 0 && |b| > 0 {
      if a[0] == b[0] {
        SublistMembers(a[1..], b[1..]);
        assert forall x :: x in a ==> x == a[0] || x in a[1..];
      } else {
        SublistMembers(a, b[1..]);
      }
    }
  }

  /** The flag of one document. */
  function Flag(d: Documents, key: DocumentKey): bool {
    match key
    case Resume => d.resume
    case Certification => d.certification
    case BackgroundCheck => d.backgroundCheck
  }

  /** `handleDocumentToggle`: the named flag reads back negated and every
      other flag keeps its value. */
  function ToggleDocument(d: Documents, key: DocumentKey): (r: Documents)
    ensures Flag(r, key) == !Flag(d, key)
    ensures forall k :: k != key ==> Flag(r, k) == Flag(d, k)
  {
    match key
    case Resume => d.(resume := !d.resume)
    case Certification => d.(certification := !d.certification)
    case BackgroundCheck => d.(backgroundCheck := !d.backgroundCheck)
  }

  lemma ToggleDocumentInvolution(d: Documents, key: DocumentKey)
    ensures ToggleDocument(ToggleDocument(d, key), key) == d
    ensures ToggleDocument(d, key) != d
  {
  }

  /** `validateStep`: what each step needs before moving on. */
  predicate StepValid(step: int, f: FormData) {
    if step == 1 then f.fullName != "" && f.email != "" && f.phone != ""
    else if step == 2 then f.education != "" && f.experience != "" && |f.subjects| > 0
    else if step == 3 then |f.availability| > 0
    else true
  }

  /** The toast `validateStep` shows when the step is incomplete. */
  function ValidationToast(step: int, f: FormData): (t: Option<Toast>)
    ensures t.None? <==> StepValid(step, f)
    ensures t.Some? ==> t.value.destructive && t.value.title == "Missing information"
  {
    if StepValid(step, f) then None
    else if step == 1 then Some(Toast("Missing information", "Please fill in all required fields", true))
    else if step == 2 then
      Some(Toast("Missing information", "Please fill in all required fields and select at least one subject", true))
    else Some(Toast("Missing information", "Please select at least one availability option", true))
  }

  datatype Wizard = Wizard(step: int, form: FormData)

  const Start := Wizard(1, EmptyForm)

  /** `nextStep`: the wizard advances exactly when `validateStep` shows no
      toast; the form is untouched, and pressing the shown button keeps the
      wizard consistent. */
  function Next(w: Wizard): (r: Wizard)
    ensures r.form == w.form
    ensures r.step == w.step + 1 <==> ValidationToast(w.step, w.form).None?
    ensures r.step != w.step + 1 ==> r == w
    ensures Consistent(w) && NextShown(w) ==> Consistent(r)
  {
    if StepValid(w.step, w.form) then w.(step := w.step + 1) else w
  }

  /** `prevStep`: the form is untouched, and on a consistent wizard the
      shown button can be undone by "Next". */
  function Previous(w: Wizard): (r: Wizard)
    ensures r.form == w.form && r.step < w.step
    ensures Consistent(w) && PreviousShown(w) ==> Consistent(r) && Next(r) == w
  {
    w.(step := w.step - 1)
  }

  /** "Previous" undoes a successful "Next". */
  lemma PreviousUndoesNext(w: Wizard)
    requires StepValid(w.step, w.form)
    ensures Next(w).step == w.step + 1 && Previous(Next(w)) == w
  {
  }

  /** The record handed to `onTutorAdded`. */
  datatype OnboardedTutor = OnboardedTutor(id: string, form: FormData, status: string, joinDate: string)

  /** `handleSubmit` with the delay elapsed: the form goes out as a pending
      tutor, then the wizard starts over. `id` and `joinDate` stand for the
      random id and the current time. */
  function Submit(w: Wizard, id: string, joinDate: string): (r: (Wizard, Option<OnboardedTutor>))
    ensures r.1.Some? <==> ValidationToast(w.step, w.form).None?
    ensures r.1.Some? ==> r.0 == Start && r.1.value.form == w.form && r.1.value.id == id
                          && r.1.value.status == "Pending" && r.1.value.joinDate == joinDate
    ensures r.1.None? ==> r.0 == w
    ensures Consistent(w) && SubmitShown(w) ==> r.1.Some? && Consistent(r.0)
  {
    if StepValid(w.step, w.form) then (Start, Some(OnboardedTutor(id, w.form, "Pending", joinDate)))
    else (w, None)
  }

  /** What the user can do: type into or toggle something on the current
      step, or press a footer button that is shown. */
  datatype Event =
    | Type(field: TextField, value: string)
    | PickSubject(subject: string)
    | PickAvailability(option: string)
    | FlipDocument(key: DocumentKey)
    | PressPrevious
    | PressNext
    | PressSubmit(id: string, joinDate: string)

  /** The footer: "Previous" after step 1, "Next" before step 4, the submit
      button on step 4. */
  predicate PreviousShown(w: Wizard) { w.step > 1 }
  predicate NextShown(w: Wizard) { w.step < 4 }
  predicate SubmitShown(w: Wizard) { !(w.step < 4) }

  /** One event. A text input or option list whose step is not shown, or a
      footer button that is hidden, changes nothing. `FlipDocument` stands
      for `handleDocumentToggle`, which no control calls; like the handler,
      it has no step guard. */
  function Apply(w: Wizard, e: Event): (r: (Wizard, Option<OnboardedTutor>)) {
    match e
    case Type(field, value) =>
      (if FieldStep(field) == w.step then w.(form := Input(w.form, field, value)) else w, None)
    case PickSubject(s) =>
      (if w.step == 2 then w.(form := w.form.(subjects := Toggle(w.form.subjects, s))) else w, None)
    case PickAvailability(a) =>
      (if w.step == 3 then w.(form := w.form.(availability := Toggle(w.form.availability, a))) else w, None)
    case FlipDocument(k) =>
      (w.(form := w.form.(documents := ToggleDocument(w.form.documents, k))), None)
    case PressPrevious => (if PreviousShown(w) then Previous(w) else w, None)
    case PressNext => (if NextShown(w) then Next(w) else w, None)
    case PressSubmit(id, joinDate) => if SubmitShown(w) then Submit(w, id, joinDate) else (w, None)
  }

  /** The wizard's invariant: the step is between 1 and 4 and every earlier
      step is complete. */
  predicate Consistent(w: Wizard) {
    1 <= w.step <= 4 && forall j :: 1 <= j < w.step ==> StepValid(j, w.form)
  }

  lemma StartConsistent()
    ensures Consistent(Start)
  {
  }

  /** Every event keeps the invariant. */
  lemma ApplyKeepsConsistent(w: Wizard, e: Event)
    requires Consistent(w)
    ensures Consistent(Apply(w, e).0)
  {
    var r := Apply(w, e).0;
    forall j | 1 <= j < r.step
      ensures StepValid(j, r.form)
    {
      if j < w.step {
        assert StepValid(j, w.form);
      }
    }
  }

  /** A tutor handed over by the wizard has every required detail, at least
      one subject and one availability option, and is pending. */
  lemma SubmittedTutorComplete(w: Wizard, e: Event)
    requires Consistent(w)
    requires Apply(w, e).1.Some?
    ensures var t := Apply(w, e).1.value;
      && t.form.fullName != "" && t.form.email != "" && t.form.phone != ""
      && t.form.education != "" && t.form.experience != ""
      && |t.form.subjects| > 0 && |t.form.availability| > 0
      && t.status == "Pending"
      && Apply(w, e).0 == Start
  {
    assert StepValid(1, w.form) && StepValid(2, w.form) && StepValid(3, w.form);
  }

  /** Any run of events from the start keeps the invariant, so the step
      never leaves 1..4. */
  function Run(w: Wizard, events: seq<Event>): Wizard
    decreases |events|
  {
    if |events| == 0 then w else Run(Apply(w, events[0]).0, events[1..])
  }

  lemma {:induction false} RunKeepsConsistent(w: Wizard, events: seq<Event>)
    requires Consistent(w)
    ensures Consistent(Run(w, events))
    ensures 1 <= Run(w, events).step <= 4
    decreases |events|
  {
    if |events| > 0 {
      ApplyKeepsConsistent(w, events[0]);
      RunKeepsConsistent(Apply(w, events[0]).0, events[1..]);
    }
  }
}
