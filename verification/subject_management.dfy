/** The admin subject list: adding or updating from the dialog's draft,
    opening a subject for editing, deleting, and the name search. */
module SubjectManagement {
  import opened Common
  import opened Strings
  import opened Records

  datatype Subject = Subject(id: string, name: string, description: string, tutorCount: int,
                             studentCount: int, level: string)

  /** The dialog's fields. */
  datatype Draft = Draft(name: string, description: string, level: string)

  const EmptyDraft := Draft("", "", "")

  /** The component's state; `editing` is the subject the dialog updates,
      `None` when it adds. */
  datatype Admin = Admin(subjects: seq<Subject>, draft: Draft, editing: Option<Subject>, dialogOpen: bool)

  /** A JavaScript number as far as `Math.max(...ids) + 1` needs one. */
  datatype JsNumber = Finite(n: int) | NaN | NegInfinity

  /** `Math.max` of the parsed ids: `-Infinity` for none, `NaN` as soon as
      one id is not a number (`None`). */
  function JsMax(xs: seq<Option<int>>): (r: JsNumber)
    ensures |xs| == 0 <==> r == NegInfinity
    ensures (exists i :: 0 <= i < |xs| && xs[i].None?) <==> r == NaN
    ensures r.Finite? ==> (forall i :: 0 <= i < |xs| ==> xs[i].Some? && xs[i].value <= r.n)
                          && exists i :: 0 <= i < |xs| && xs[i] == Some(r.n)
  {
    if |xs| == 0 then NegInfinity
    else
      var rest := JsMax(xs[1..]);
      assert forall i :: 1 <= i < |xs| ==> xs[i] == xs[1..][i - 1];
      if xs[0].None? || rest.NaN? then NaN
      else if rest.NegInfinity? || xs[0].value >= rest.n then Finite(xs[0].value)
      else rest
  }

  /** `(n + 1).toString()`. */
  function SuccessorText(x: JsNumber): string {
    match x
    case Finite(n) => IntToString(n + 1)
    case NaN => "NaN"
    case NegInfinity => "-Infinity"
  }

  function ParsedIds(subjects: seq<Subject>): (r: seq<Option<int>>)
    ensures |r| == |subjects|
    ensures forall i :: 0 <= i < |r| ==> r[i] == ParseInt(subjects[i].id)
  {
    seq(|subjects|, i requires 0 <= i < |subjects| => ParseInt(subjects[i].id))
  }

  /** The id the add branch computes, as written: one more than the largest
      parsed id. An empty list gives "-Infinity"; a list holding an id that
      is not a number gives "NaN". */
  function NextIdAsWritten(subjects: seq<Subject>): (r: string)
    ensures |subjects| == 0 ==> r == "-Infinity"
    ensures (exists i :: 0 <= i < |subjects| && ParseInt(subjects[i].id).None?) ==> r == "NaN"
  {
    SuccessorText(JsMax(ParsedIds(subjects)))
  }

  /** The largest parsed id, ignoring ids that are not numbers, and never
      below 0. */
  function MaxId(subjects: seq<Subject>): (m: int)
    ensures m >= 0
    ensures forall i :: 0 <= i < |subjects| && ParseInt(subjects[i].id).Some? ==> ParseInt(subjects[i].id).value <= m
  {
    if |subjects| == 0 then 0
    else
      var rest := MaxId(subjects[1..]);
      assert forall i :: 1 <= i < |subjects| ==> subjects[i] == subjects[1..][i - 1];
      var here := ParseInt(subjects[0].id);
      if here.Some? && here.value > rest then here.value else rest
  }

  /** The id a new subject gets, corrected: one more than `MaxId`. */
  function NextId(subjects: seq<Subject>): (r: string)
    ensures forall s :: s in subjects ==> s.id != r
  {
    var r := IntToString(MaxId(subjects) + 1);
    ParseIntOfIntToString(MaxId(subjects) + 1);
    r
  }

  /** On a non-empty list of non-negative numeric ids the two agree. */
  lemma NextIdAgrees(subjects: seq<Subject>)
    requires |subjects| > 0
    requires forall i :: 0 <= i < |subjects| ==> ParseInt(subjects[i].id).Some? && ParseInt(subjects[i].id).value >= 0
    ensures NextIdAsWritten(subjects) == NextId(subjects)
  {
    var m := JsMax(ParsedIds(subjects));
    assert m.Finite?;
    var i :| 0 <= i < |subjects| && ParsedIds(subjects)[i] == Some(m.n);
    assert MaxId(subjects) >= m.n;
    assert MaxId(subjects) <= m.n by {
      MaxIdAttained(subjects);
    }
  }

  /** `MaxId` is 0 or some parsed id. */
  lemma {:induction false} MaxIdAttained(subjects: seq<Subject>)
    ensures MaxId(subjects) == 0 || exists i :: 0 <= i < |subjects| && ParseInt(subjects[i].id) == Some(MaxId(subjects))
  {
    if |subjects| > 0 {
      MaxIdAttained(subjects[1..]);
      if MaxId(subjects) != 0 && MaxId(subjects) == MaxId(subjects[1..]) {
        var i :| 0 <= i < |subjects[1..]| && ParseInt(subjects[1..][i].id) == Some(MaxId(subjects));
        assert subjects[i + 1] == subjects[1..][i];
      }
    }
  }

  /** The update branch for one subject: each non-empty draft field replaces
      the stored one; the id and both counts stay, and a draft holding the
      subject's own fields gives the subject back. */
  function Merge(s: Subject, d: Draft): (r: Subject)
    ensures r.id == s.id && r.tutorCount == s.tutorCount && r.studentCount == s.studentCount
    ensures d == Draft(s.name, s.description, s.level) ==> r == s
    ensures r.name == (if d.name != "" then d.name else s.name)
    ensures r.description == (if d.description != "" then d.description else s.description)
    ensures r.level == (if d.level != "" then d.level else s.level)
  {
    s.(name := if d.name != "" then d.name else s.name,
       description := if d.description != "" then d.description else s.description,
       level := if d.level != "" then d.level else s.level)
  }

  /** The add branch's new subject. */
  function NewSubject(id: string, d: Draft): (r: Subject)
    ensures r.id == id && r.name == d.name && r.description == d.description
    ensures r.level == (if d.level != "" then d.level else "All Levels")
    ensures r.tutorCount == 0 && r.studentCount == 0
  {
    Subject(id, d.name, d.description, 0, 0, if d.level != "" then d.level else "All Levels")
  }

  /** `handleAddSubject`, with the corrected id. */
  function Save(st: Admin): (r: (Admin, Toast))
    ensures st.draft.name == "" ==> r.0 == st && r.1.destructive
    ensures st.draft.name != "" ==> && r.0.draft == EmptyDraft && r.0.editing.None? && !r.0.dialogOpen
                                    && !r.1.destructive
    ensures st.draft.name != "" && st.editing.Some? ==>
      && |r.0.subjects| == |st.subjects|
      && forall i :: 0 <= i < |st.subjects| ==>
           r.0.subjects[i] == if st.subjects[i].id == st.editing.value.id then Merge(st.subjects[i], st.draft)
                              else st.subjects[i]
    ensures st.draft.name != "" && st.editing.None? ==>
      && r.0.subjects == st.subjects + [NewSubject(NextId(st.subjects), st.draft)]
      && forall s :: s in st.subjects ==> s.id != NextId(st.subjects)
  {
    if st.draft.name == "" then (st, Toast("Error", "Subject name is required", true))
    else
      var after := Admin([], EmptyDraft, None, false);
      if st.editing.Some? then
        var id := st.editing.value.id;
        (after.(subjects := seq(|st.subjects|, i requires 0 <= i < |st.subjects| =>
                  if st.subjects[i].id == id then Merge(st.subjects[i], st.draft) else st.subjects[i])),
         Toast("Success", "Subject updated successfully", false))
      else
        (after.(subjects := st.subjects + [NewSubject(NextId(st.subjects), st.draft)]),
         Toast("Success", "Subject added successfully", false))
  }

  /** `handleEditSubject`: the dialog opens on the subject's own fields. */
  function Edit(st: Admin, s: Subject): (r: Admin)
    ensures r.subjects == st.subjects && r.editing == Some(s) && r.dialogOpen
    ensures r.draft == Draft(s.name, s.description, s.level)
  {
    st.(editing := Some(s), draft := Draft(s.name, s.description, s.level), dialogOpen := true)
  }

  /** The "Add Subject" trigger: the dialog opens on an empty draft and
      forgets any subject left from an earlier edit. */
  function OpenAdd(st: Admin): (r: Admin)
    ensures r.subjects == st.subjects && r.dialogOpen
    ensures r.editing.None? && r.draft == EmptyDraft
  {
    st.(editing := None, draft := EmptyDraft, dialogOpen := true)
  }

  /** After "Add Subject", even when an edit dialog was closed without
      saving, filling in a name and saving appends one new subject with a
      fresh id instead of updating the abandoned one. */
  lemma OpenAddThenSaveAppends(st: Admin, d: Draft)
    requires d.name != ""
    ensures var r := Save(OpenAdd(st).(draft := d)).0.subjects;
      && r == st.subjects + [NewSubject(NextId(st.subjects), d)]
      && forall s :: s in st.subjects ==> s.id != r[|st.subjects|].id
  {
  }

  /** The dialog's "Cancel" button, and dismissing the dialog: it only
      closes, so the draft and the subject being edited stay. */
  function CloseDialog(st: Admin): (r: Admin)
    ensures !r.dialogOpen
    ensures r.subjects == st.subjects && r.draft == st.draft && r.editing == st.editing
  {
    st.(dialogOpen := false)
  }

  /** The "Add Subject" button of the empty list: it only opens the
      dialog, so a draft and an edited subject left from before stay. */
  function OpenAddEmptyState(st: Admin): (r: Admin)
    ensures r.dialogOpen
    ensures r.subjects == st.subjects && r.draft == st.draft && r.editing == st.editing
  {
    st.(dialogOpen := true)
  }

  /** The empty list's button as written: open a subject for editing,
      cancel, delete it, then add through the empty list's button. The
      save takes the update branch over an empty list, so nothing is
      added, yet the update toast shows. The header's trigger `OpenAdd`
      appends instead (`OpenAddThenSaveAppends`). */
  lemma EmptyStateAddAfterCancelLosesSubject(s: Subject, d: Draft)
    requires d.name != ""
    ensures var edited := CloseDialog(Edit(Admin([s], EmptyDraft, None, false), s));
      var emptied := edited.(subjects := Delete(edited.subjects, s.id).0);
      var saved := Save(OpenAddEmptyState(emptied).(draft := d));
      && Search(emptied.subjects, "") == []
      && saved.0.subjects == []
      && saved.1 == Toast("Success", "Subject updated successfully", false)
      && Save(OpenAdd(emptied).(draft := d)).0.subjects == [NewSubject(NextId([]), d)]
  {
  }

  /** `handleDeleteSubject`: the subjects with another id stay, in order, and
      the deletion toast shows. */
  function Delete(subjects: seq<Subject>, id: string): (r: (seq<Subject>, Toast))
    ensures IsSublist(r.0, subjects)
    ensures forall s :: s in r.0 <==> s in subjects && s.id != id
    ensures r.1 == Toast("Success", "Subject deleted successfully", false)
  {
    (Filter(subjects, (s: Subject) => s.id != id), Toast("Success", "Subject deleted successfully", false))
  }

  /** `filteredSubjects`. */
  function Search(subjects: seq<Subject>, query: string): (r: seq<Subject>)
    ensures IsSublist(r, subjects)
    ensures forall s :: s in r <==> s in subjects && MatchesSearch(s.name, query)
  {
    Filter(subjects, (s: Subject) => MatchesSearch(s.name, query))
  }

  /** An empty search shows every subject. */
  lemma EmptySearchShowsAll(subjects: seq<Subject>)
    ensures Search(subjects, "") == subjects
  {
    forall s | s in subjects
      ensures MatchesSearch(s.name, "")
    {
      EmptyQueryMatches(s.name);
    }
  }

  /** Deleting the subject just added restores the list. */
  lemma DeleteUndoesAdd(st: Admin)
    requires st.draft.name != "" && st.editing.None?
    ensures Delete(Save(st).0.subjects, NextId(st.subjects)).0 == st.subjects
  {
    var id := NextId(st.subjects);
    var p := (s: Subject) => s.id != id;
    var added := [NewSubject(id, st.draft)];
    assert Save(st).0.subjects == st.subjects + added;
    FilterConcat(st.subjects, added, p);
    assert Filter(added, p) == [];
    assert forall i :: 0 <= i < |st.subjects| ==> p(st.subjects[i]);
    assert Filter(st.subjects, p) == st.subjects;
  }

  /** Opening a subject and saving the dialog unchanged leaves the list as
      it was, when ids are unique and the subject has a name. */
  lemma EditThenSaveKeeps(st: Admin, s: Subject)
    requires s in st.subjects && s.name != ""
    requires forall i, j :: 0 <= i < j < |st.subjects| ==> st.subjects[i].id != st.subjects[j].id
    ensures Save(Edit(st, s)).0.subjects == st.subjects
  {
    var after := Save(Edit(st, s)).0.subjects;
    forall i | 0 <= i < |st.subjects|
      ensures after[i] == st.subjects[i]
    {
      if st.subjects[i].id == s.id {
        var k :| 0 <= k < |st.subjects| && st.subjects[k] == s;
        assert k == i;
      }
    }
  }

  /** The source's own id rule: after the list is emptied, the first add
      gets id "-Infinity" and every later add "NaN", so the third add
      repeats the second one's id. */
  lemma RepeatedIdAfterEmptying(a: Draft, b: Draft, c: Draft)
    ensures var s1 := [NewSubject(NextIdAsWritten([]), a)];
      var s2 := s1 + [NewSubject(NextIdAsWritten(s1), b)];
      && s1[0].id == "-Infinity"
      && NextIdAsWritten(s2) == s2[1].id == "NaN"
  {
    var s1 := [NewSubject(NextIdAsWritten([]), a)];
    assert ParseInt(s1[0].id).None? by {
      assert s1[0].id == "-Infinity";
      TrimStartNoSpace("-Infinity");
      assert DigitPrefixLength("Infinity") == 0;
    }
    var s2 := s1 + [NewSubject(NextIdAsWritten(s1), b)];
    assert s2[0] == s1[0];
  }
}
