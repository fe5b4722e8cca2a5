/** The subjects page: the list it shows after loading `/api/subjects`,
    the create dialog that posts to the same route, and the name search. */
module SubjectsPage {
  import opened Common
  import opened Strings
  import opened Records
  import SubjectsApi

  /** A subject as the list reply carries it; the route sends no level. */
  datatype ListedSubject = ListedSubject(id: string, name: string, level: Option<string>)

  /** A table row: the subject with a display level and the two counts. */
  datatype Row = Row(id: string, name: string, level: string, tutorCount: int, studentCount: int)

  /** `level || "All Levels"`: never empty. */
  function DisplayLevel(level: Option<string>): (r: string)
    ensures r != ""
    ensures Truthy(level) ==> r == level.value
    ensures !Truthy(level) ==> r == "All Levels"
  {
    OrElse(level, "All Levels")
  }

  /** The rows built from a list reply. `draws` stands for the two random
      numbers per subject after `Math.floor(Math.random() * k)`: below 15
      for the tutors and below 50 for the students. */
  function Enhance(listed: seq<ListedSubject>, draws: seq<(nat, nat)>): (r: seq<Row>)
    requires |draws| == |listed|
    requires forall i :: 0 <= i < |draws| ==> draws[i].0 < 15 && draws[i].1 < 50
    ensures |r| == |listed|
    ensures forall i :: 0 <= i < |r| ==>
      && r[i].id == listed[i].id && r[i].name == listed[i].name
      && r[i].level != "" && (Truthy(listed[i].level) ==> r[i].level == listed[i].level.value)
      && 5 <= r[i].tutorCount < 20 && 20 <= r[i].studentCount < 70
  {
    seq(|listed|, i requires 0 <= i < |listed| =>
      Row(listed[i].id, listed[i].name, DisplayLevel(listed[i].level), draws[i].0 + 5, draws[i].1 + 20))
  }

  /** What the list route's entries become on the page. */
  function FromEntries(entries: seq<SubjectsApi.SubjectEntry>): (r: seq<ListedSubject>)
    ensures |r| == |entries|
    ensures forall i :: 0 <= i < |r| ==> r[i] == ListedSubject(entries[i].id, entries[i].name, None)
  {
    seq(|entries|, i requires 0 <= i < |entries| => ListedSubject(entries[i].id, entries[i].name, None))
  }

  /** Every subject the route lists is shown as "All Levels", with its name
      as its id. */
  lemma RouteSubjectsShowAllLevels(c: Caller, draws: seq<(nat, nat)>, i: int)
    requires |draws| == |SubjectsApi.SubjectNames|
    requires forall k :: 0 <= k < |draws| ==> draws[k].0 < 15 && draws[k].1 < 50
    requires 0 <= i < |SubjectsApi.SubjectNames|
    ensures var rows := Enhance(FromEntries(SubjectsApi.ListSubjects(Some(c)).body), draws);
      |rows| == |SubjectsApi.SubjectNames| && rows[i].level == "All Levels"
      && rows[i].id == rows[i].name == SubjectsApi.SubjectNames[i]
  {
  }

  /** Applying the list reply: the rows on success, otherwise the previous
      rows and an error toast. */
  function Load(previous: seq<Row>, reply: Response<seq<ListedSubject>>, draws: seq<(nat, nat)>): (r: (seq<Row>, Option<Toast>))
    requires reply.Ok? ==> |draws| == |reply.body|
    requires forall i :: 0 <= i < |draws| ==> draws[i].0 < 15 && draws[i].1 < 50
    ensures reply.Ok? ==> r == (Enhance(reply.body, draws), None)
    ensures reply.Error? ==> r.0 == previous && r.1.Some? && r.1.value.destructive && r.1.value.description != ""
  {
    if reply.Ok? then (Enhance(reply.body, draws), None)
    else (previous, Some(Toast("Error", if reply.message != "" then reply.message else "Failed to fetch subjects", true)))
  }

  /** The create dialog's fields; the level select starts at "all". */
  datatype Draft = Draft(name: string, description: string, level: string)

  const InitialDraft := Draft("", "", "all")

  datatype Dialog = Dialog(draft: Draft, open: bool)

  /** The JSON body the dialog posts. */
  function RequestOf(d: Draft): SubjectsApi.NewSubjectRequest {
    SubjectsApi.NewSubjectRequest(Some(d.name), Some(d.description), Some(d.level))
  }

  /** The outcome of `handleCreateSubject`: the dialog afterwards, the
      request sent (if any), the toast, and whether the list reloads. */
  datatype Created = Created(dialog: Dialog, sent: Option<SubjectsApi.NewSubjectRequest>, toast: Toast, reload: bool)

  /** `reply` is the route's answer to the posted draft. */
  function Create(d: Dialog, reply: Response<SubjectsApi.CreatedSubject>): (r: Created)
    ensures d.draft.name == "" ==> r.sent.None? && r.dialog == d && r.toast.destructive && !r.reload
    ensures d.draft.name != "" ==> r.sent == Some(RequestOf(d.draft))
    ensures d.draft.name != "" && reply.Ok? ==>
      r.dialog == Dialog(InitialDraft, false) && !r.toast.destructive && r.reload
    ensures d.draft.name != "" && reply.Error? ==> r.dialog == d && r.toast.destructive && !r.reload
  {
    if d.draft.name == "" then Created(d, None, Toast("Error", "Subject name is required", true), false)
    else if reply.Ok? then
      Created(Dialog(InitialDraft, false), Some(RequestOf(d.draft)), Toast("Success", "Subject created successfully", false), true)
    else
      Created(d, Some(RequestOf(d.draft)),
              Toast("Error", if reply.message != "" then reply.message else "Failed to create subject", true), false)
  }

  /** Against the route: an admin's named draft is created (echoing the
      selected level) and the dialog resets; anyone else keeps the dialog
      and sees the route's refusal. */
  lemma CreateAgainstRoute(d: Dialog, c: Caller)
    requires d.draft.name != ""
    ensures var reply := SubjectsApi.CreateSubject(Some(c), Some(RequestOf(d.draft)));
      var r := Create(d, reply);
      && (EffectiveRole(c) == "admin" ==> reply.Ok? && reply.body.level == Some(d.draft.level)
                                          && r.dialog == Dialog(InitialDraft, false))
      && (EffectiveRole(c) != "admin" ==> r.dialog == d && r.toast.description == SubjectsApi.AdminsOnly)
  {
  }

  /** `filteredSubjects`. */
  function Search(rows: seq<Row>, query: string): (r: seq<Row>)
    ensures IsSublist(r, rows)
    ensures forall x :: x in r <==> x in rows && MatchesSearch(x.name, query)
  {
    Filter(rows, (x: Row) => MatchesSearch(x.name, query))
  }

  lemma EmptySearchShowsAll(rows: seq<Row>)
    ensures Search(rows, "") == rows
  {
    forall x | x in rows
      ensures MatchesSearch(x.name, "")
    {
      EmptyQueryMatches(x.name);
    }
  }

  /** Search ignores the case of the query. */
  lemma SearchIgnoresQueryCase(rows: seq<Row>, query: string)
    ensures Search(rows, ToLower(query)) == Search(rows, query)
  {
    ToLowerIdempotent(query);
    FilterCongruent(rows, (x: Row) => MatchesSearch(x.name, ToLower(query)), (x: Row) => MatchesSearch(x.name, query));
  }
}
