/** The tutor management page: the search and the two filters over the
    tutor list, the badge colour of a status, and adding the tutor the
    onboarding wizard hands over. */
module TutorsPage {
  import opened Common
  import opened Strings
  import TutorOnboarding

  /** A tutor object of the page's list; `name` is `None` when the object
      has no `name` key. */
  datatype TutorEntry = TutorEntry(id: int, name: Option<string>, email: string, subjects: seq<string>,
                                   status: string)

  const MockTutors: seq<TutorEntry> := [
    TutorEntry(1, Some("Dr. Smith"), "smith@example.com", ["Mathematics", "Physics"], "Active"),
    TutorEntry(2, Some("Prof. Johnson"), "johnson@example.com", ["Physics", "Chemistry"], "Active"),
    TutorEntry(3, Some("Ms. Williams"), "williams@example.com", ["Biology", "Chemistry"], "Pending"),
    TutorEntry(4, Some("Mr. Davis"), "davis@example.com", ["English", "History"], "Active"),
    TutorEntry(5, Some("Dr. Miller"), "miller@example.com", ["Computer Science", "Mathematics"], "Inactive")
  ]

  /** The search text and the two selects ("all" is the unfiltered value). */
  datatype Filters = Filters(query: string, status: string, subject: string)

  const DefaultFilters := Filters("", "all", "all")

  /** The status select's value is compared with the lower-cased status. */
  predicate MatchesStatus(t: TutorEntry, status: string) {
    status == "all" || ToLower(t.status) == status
  }

  /** Some subject equals the selected one, ignoring case. */
  predicate MatchesSubject(t: TutorEntry, subject: string) {
    subject == "all" || AnyEqualIgnoringCase(t.subjects, subject)
  }

  predicate Matches(t: TutorEntry, f: Filters) {
    t.name.Some? && MatchesSearch(t.name.value, f.query) && MatchesStatus(t, f.status) && MatchesSubject(t, f.subject)
  }

  /** `filteredTutors`: the callback reads `tutor.name.toLowerCase()` for
      every tutor, so one tutor without a name makes it throw (`None`). */
  function Filtered(tutors: seq<TutorEntry>, f: Filters): (r: Option<seq<TutorEntry>>)
    ensures r.None? <==> exists i :: 0 <= i < |tutors| && tutors[i].name.None?
    ensures r.Some? ==> IsSublist(r.value, tutors)
    ensures r.Some? ==> forall t :: t in r.value <==> t in tutors && Matches(t, f)
  {
    if exists i :: 0 <= i < |tutors| && tutors[i].name.None? then None
    else Some(Filter(tutors, (t: TutorEntry) => Matches(t, f)))
  }

  /** With the default filters every tutor is listed. */
  lemma DefaultFiltersShowAll(tutors: seq<TutorEntry>)
    requires forall i :: 0 <= i < |tutors| ==> tutors[i].name.Some?
    ensures Filtered(tutors, DefaultFilters) == Some(tutors)
  {
    forall i | 0 <= i < |tutors|
      ensures Matches(tutors[i], DefaultFilters)
    {
      EmptyQueryMatches(tutors[i].name.value);
    }
  }

  /** `getStatusBadgeClass`: chosen on the lower-cased status; "inactive"
      and every unknown status are grey. */
  function BadgeClass(status: string): (r: string)
    ensures ToLower(status) !in {"active", "pending"} ==> r == "bg-gray-100 text-gray-800"
  {
    var s := ToLower(status);
    if s == "active" then "bg-green-100 text-green-800"
    else if s == "pending" then "bg-yellow-100 text-yellow-800"
    else if s == "inactive" then "bg-gray-100 text-gray-800"
    else "bg-gray-100 text-gray-800"
  }

  lemma BadgeClassIgnoresCase(status: string)
    ensures BadgeClass(status) == BadgeClass(ToLower(status))
  {
    ToLowerIdempotent(status);
  }

  /** The list entry for an onboarded tutor, as `handleTutorAdded` builds
      it: the wizard's record has `fullName` but no `name`. */
  function EntryAsWritten(o: TutorOnboarding.OnboardedTutor, id: int): TutorEntry {
    TutorEntry(id, None, o.form.email, o.form.subjects, o.status)
  }

  /** `handleTutorAdded` as written: the list keeps its tutors and gains one
      entry with id `length + 1` and no name, after which the list view
      throws whatever the filters. */
  function AddAsWritten(tutors: seq<TutorEntry>, o: TutorOnboarding.OnboardedTutor): (r: seq<TutorEntry>)
    ensures |r| == |tutors| + 1 && r[..|tutors|] == tutors
    ensures r[|tutors|].id == |tutors| + 1 && r[|tutors|].name.None?
    ensures forall f :: Filtered(r, f).None?
  {
    var r := tutors + [EntryAsWritten(o, |tutors| + 1)];
    assert r[|tutors|].name.None?;
    r
  }

  /** After any onboarding the list view throws, whatever the filters. */
  lemma OnboardedTutorBreaksFilter(tutors: seq<TutorEntry>, o: TutorOnboarding.OnboardedTutor, f: Filters)
    ensures Filtered(AddAsWritten(tutors, o), f).None?
  {
    var r := AddAsWritten(tutors, o);
    assert r[|tutors|].name.None?;
  }

  /** The entry with the full name as its name. */
  function Entry(o: TutorOnboarding.OnboardedTutor, id: int): TutorEntry {
    TutorEntry(id, Some(o.form.fullName), o.form.email, o.form.subjects, o.status)
  }

  /** `handleTutorAdded`, corrected: the list keeps its tutors and gains one
      entry with id `length + 1`, named by the full name, so every filter
      that worked before still works. */
  function Add(tutors: seq<TutorEntry>, o: TutorOnboarding.OnboardedTutor): (r: seq<TutorEntry>)
    ensures |r| == |tutors| + 1 && r[..|tutors|] == tutors
    ensures r[|tutors|] == Entry(o, |tutors| + 1) && r[|tutors|].name == Some(o.form.fullName)
    ensures forall f :: Filtered(tutors, f).Some? ==> Filtered(r, f).Some?
  {
    tutors + [Entry(o, |tutors| + 1)]
  }

  /** The corrected add keeps the list view working, and the new tutor is
      listed under the default filters, found by its own name, and shown
      under the "pending" status filter. */
  lemma AddKeepsFilterWorking(tutors: seq<TutorEntry>, o: TutorOnboarding.OnboardedTutor, f: Filters)
    requires Filtered(tutors, f).Some?
    ensures Filtered(Add(tutors, o), f).Some?
  {
    var r := Add(tutors, o);
    forall i | 0 <= i < |r|
      ensures r[i].name.Some?
    {
      if i < |tutors| {
        assert r[i] == tutors[i];
      }
    }
  }

  lemma AddedTutorListed(tutors: seq<TutorEntry>, o: TutorOnboarding.OnboardedTutor)
    requires Filtered(tutors, DefaultFilters).Some?
    ensures Entry(o, |tutors| + 1) in Filtered(Add(tutors, o), DefaultFilters).value
  {
    AddKeepsFilterWorking(tutors, o, DefaultFilters);
    EmptyQueryMatches(o.form.fullName);
  }

  lemma AddedTutorFound(tutors: seq<TutorEntry>, o: TutorOnboarding.OnboardedTutor)
    requires Filtered(tutors, DefaultFilters).Some?
    requires o.status == "Pending"
    ensures Entry(o, |tutors| + 1) in Filtered(Add(tutors, o), Filters(o.form.fullName, "pending", "all")).value
  {
    var f := Filters(o.form.fullName, "pending", "all");
    AddKeepsFilterWorking(tutors, o, DefaultFilters);
    AddKeepsFilterWorking(tutors, o, f);
    var x := ToLower(o.form.fullName);
    assert OccursAt(x, x, 0);
    PendingLower();
    assert Matches(Entry(o, |tutors| + 1), f);
  }

  lemma PendingLower()
    ensures ToLower("Pending") == "pending"
  {
    var s := "Pending";
    assert ToLowerChar(s[0]) == 'p';
  }

  /** Ids stay 1, 2, … in list order when tutors are only ever added. */
  predicate SequentialIds(tutors: seq<TutorEntry>) {
    forall i :: 0 <= i < |tutors| ==> tutors[i].id == i + 1
  }

  lemma AddKeepsSequentialIds(tutors: seq<TutorEntry>, o: TutorOnboarding.OnboardedTutor)
    requires SequentialIds(tutors)
    ensures SequentialIds(Add(tutors, o))
    ensures forall t :: t in tutors ==> t.id != |tutors| + 1
  {
  }

  lemma MockIdsSequential()
    ensures SequentialIds(MockTutors)
  {
  }
}
