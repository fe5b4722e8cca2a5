/** The student management page: the name search and the grade and subject
    selects over the student list, the badge of a student's upcoming
    sessions, and the link to a student's progress. */
module StudentsPage {
  import opened Common
  import opened Strings
  import opened UrlQuery

  datatype StudentEntry = StudentEntry(id: int, name: string, email: string, grade: string,
                                       subjects: seq<string>, upcomingSessions: int)

  const MockStudents: seq<StudentEntry> := [
    StudentEntry(1, "Alex Johnson", "alex@example.com", "10th", ["Mathematics", "Physics"], 2),
    StudentEntry(2, "Emma Williams", "emma@example.com", "11th", ["Physics", "Chemistry"], 1),
    StudentEntry(3, "Michael Brown", "michael@example.com", "9th", ["Chemistry", "Biology"], 3),
    StudentEntry(4, "Sophia Davis", "sophia@example.com", "12th", ["Mathematics", "English"], 0),
    StudentEntry(5, "James Wilson", "james@example.com", "10th", ["History", "English"], 1)
  ]

  /** The search text and the two selects ("all" is the unfiltered value). */
  datatype Filters = Filters(query: string, grade: string, subject: string)

  const DefaultFilters := Filters("", "all", "all")

  /** The grade is compared exactly; the subject ignoring case. */
  predicate MatchesGrade(s: StudentEntry, grade: string) {
    grade == "all" || s.grade == grade
  }

  predicate MatchesSubject(s: StudentEntry, subject: string) {
    subject == "all" || AnyEqualIgnoringCase(s.subjects, subject)
  }

  predicate Matches(s: StudentEntry, f: Filters) {
    MatchesSearch(s.name, f.query) && MatchesGrade(s, f.grade) && MatchesSubject(s, f.subject)
  }

  /** `filteredStudents`: the matching students in list order. */
  function Filtered(students: seq<StudentEntry>, f: Filters): (r: seq<StudentEntry>)
    ensures IsSublist(r, students)
    ensures forall s :: s in r <==> s in students && Matches(s, f)
  {
    Filter(students, (s: StudentEntry) => Matches(s, f))
  }

  /** With the default filters every student is listed. */
  lemma DefaultFiltersShowAll(students: seq<StudentEntry>)
    ensures Filtered(students, DefaultFilters) == students
  {
    forall s | s in students
      ensures Matches(s, DefaultFilters)
    {
      EmptyQueryMatches(s.name);
    }
  }

  /** The subject select ignores case: a subject spelled in other capitals
      selects the same students, as long as it does not become "all". */
  lemma SubjectIgnoresCase(students: seq<StudentEntry>, f: Filters)
    requires f.subject != "all" && ToLower(f.subject) != "all"
    ensures Filtered(students, f.(subject := ToLower(f.subject))) == Filtered(students, f)
  {
    var g := f.(subject := ToLower(f.subject));
    ToLowerIdempotent(f.subject);
    forall i | 0 <= i < |students|
      ensures Matches(students[i], g) == Matches(students[i], f)
    {
      assert AnyEqualIgnoringCase(students[i].subjects, g.subject)
          == AnyEqualIgnoringCase(students[i].subjects, f.subject);
    }
    FilterCongruent(students, (s: StudentEntry) => Matches(s, g), (s: StudentEntry) => Matches(s, f));
  }

  /** The grade select does not: "10TH" matches no student in grade "10th",
      while "PHYSICS" matches a student taking "Physics". */
  lemma GradeIsExact()
    ensures var alex := MockStudents[0];
      && alex.grade == "10th" && !Matches(alex, Filters("", "10TH", "all"))
      && Matches(alex, Filters("", "all", "PHYSICS"))
  {
    var alex := MockStudents[0];
    EmptyQueryMatches(alex.name);
    assert ToLower(alex.subjects[1]) == "physics" == ToLower("PHYSICS");
  }

  /** The badge of the upcoming-sessions cell: green when there is at least
      one, grey otherwise. */
  function UpcomingBadge(upcoming: int): (r: string)
    ensures r == "bg-green-50 text-green-800" <==> upcoming > 0
    ensures r == "bg-gray-100 text-gray-800" <==> upcoming <= 0
  {
    if upcoming > 0 then "bg-green-50 text-green-800" else "bg-gray-100 text-gray-800"
  }

  /** The "View Progress" button's target for a student. */
  function ProgressLink(s: StudentEntry): string {
    "/dashboard/progress?student_id=" + IntToString(s.id)
  }

  /** The progress page opened from the list reads back the student's id. */
  lemma ProgressLinkCarriesId(s: StudentEntry)
    ensures Get(ParseQuery(QueryOf(ProgressLink(s))), "student_id") == Some(IntToString(s.id))
  {
    var params := [("student_id", IntToString(s.id))];
    ProgressLinkIsQuery(s);
    ProgressPathPlain();
    QueryOfWithQuery("/dashboard/progress", params);
    assert Get(params, "student_id") == Some(IntToString(s.id));
  }

  lemma ProgressPathPlain()
    ensures '?' !in "/dashboard/progress"
  {
  }

  /** The link is the query `URLSearchParams` would build for the id. */
  lemma ProgressLinkIsQuery(s: StudentEntry)
    ensures ProgressLink(s) == WithQuery("/dashboard/progress", [("student_id", IntToString(s.id))])
  {
    IntToStringFormSafe(s.id);
    StudentIdSafe();
    SafePairQuery("/dashboard/progress", "student_id", IntToString(s.id));
    LinkPrefix();
  }

  lemma StudentIdSafe()
    ensures forall i :: 0 <= i < |"student_id"| ==> IsFormSafe("student_id"[i])
  {
  }

  lemma LinkPrefix()
    ensures "/dashboard/progress" + "?" + "student_id" + "=" == "/dashboard/progress?student_id="
  {
  }
}
