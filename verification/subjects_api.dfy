/** `GET /api/subjects` (the fixed subject list) and `POST /api/subjects`
    (an admin "creates" a subject; nothing is stored). */
module SubjectsApi {
  import opened Common
  import opened Records

  datatype SubjectEntry = SubjectEntry(id: string, name: string)

  /** A created subject; its id is its name. */
  datatype CreatedSubject = CreatedSubject(id: string, name: string, description: Option<string>, level: Option<string>)

  datatype NewSubjectRequest = NewSubjectRequest(name: Option<string>, description: Option<string>, level: Option<string>)

  const AdminsOnly := "Only admins can create subjects"
  const NameRequired := "Subject name is required"
  const CreateFailed := "Failed to create subject"

  const SubjectNames: seq<string> :=
    ["Mathematics", "Physics", "Chemistry", "Biology", "English", "History", "Computer Science"]

  function ListSubjects(caller: Option<Caller>): (r: Response<seq<SubjectEntry>>)
    ensures caller.None? ==> r == Error(401, Unauthorized)
    ensures caller.Some? ==> r.Ok? && r.status == 200 && |r.body| == |SubjectNames|
    ensures r.Ok? ==> forall i :: 0 <= i < |r.body| ==>
      r.body[i].id == r.body[i].name == SubjectNames[i]
  {
    if caller.None? then Error(401, Unauthorized)
    else Ok(200, seq(|SubjectNames|, i requires 0 <= i < |SubjectNames| => SubjectEntry(SubjectNames[i], SubjectNames[i])))
  }

  /** The listed ids are pairwise distinct, so each identifies one subject. */
  lemma ListedIdsDistinct(c: Caller)
    ensures var r := ListSubjects(Some(c));
      forall i, j :: 0 <= i < j < |r.body| ==> r.body[i].id != r.body[j].id
  {
  }

  function CreateSubject(caller: Option<Caller>, body: Option<NewSubjectRequest>): (r: Response<CreatedSubject>)
    ensures caller.None? ==> r == Error(401, Unauthorized)
    ensures caller.Some? && EffectiveRole(caller.value) != "admin" ==> r == Error(403, AdminsOnly)
    ensures caller.Some? && EffectiveRole(caller.value) == "admin" && body.None? ==> r == Error(500, CreateFailed)
    ensures caller.Some? && EffectiveRole(caller.value) == "admin" && body.Some? && !Truthy(body.value.name)
      ==> r == Error(400, NameRequired)
    ensures r.Ok? <==> caller.Some? && EffectiveRole(caller.value) == "admin" && body.Some? && Truthy(body.value.name)
    ensures r.Ok? ==> (&& r.status == 201 && r.body.id == r.body.name == body.value.name.value
                       && r.body.description == body.value.description && r.body.level == body.value.level)
  {
    if caller.None? then Error(401, Unauthorized)
    else if EffectiveRole(caller.value) != "admin" then Error(403, AdminsOnly)
    else if body.None? then Error(500, CreateFailed)
    else
      var b := body.value;
      if !Truthy(b.name) then Error(400, NameRequired)
      else Ok(201, CreatedSubject(b.name.value, b.name.value, b.description, b.level))
  }

  /** A caller without a role in its metadata counts as a student and cannot
      create subjects. */
  lemma MissingRoleCannotCreate(id: string, body: Option<NewSubjectRequest>)
    ensures CreateSubject(Some(Caller(id, None)), body) == Error(403, AdminsOnly)
  {
  }
}
