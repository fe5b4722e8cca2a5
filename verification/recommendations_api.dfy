/** `POST /api/ai/recommendations`: learning resources for a subject, for the
    caller or for a student the role rule admits. The list is fixed sample
    data. */
module RecommendationsApi {
  import opened Common
  import opened Records

  /** The JSON body; `None` for the whole body is one that does not parse. */
  datatype RecommendationRequest = RecommendationRequest(subject: Option<string>, studentId: Option<string>)

  datatype Recommendation = Recommendation(id: int, title: string, kind: string, description: string, url: string)

  const SubjectRequired := "Subject is required"
  const GenerateFailed := "Failed to generate learning recommendations"
  const SelfOnly := "You can only get recommendations for yourself"
  const ChildrenOnly := "You can only get recommendations for your children"
  const StudentsOnly := "You can only get recommendations for your students"

  const SampleRecommendations: seq<Recommendation> := [
    Recommendation(1, "Introduction to Calculus", "video",
      "A comprehensive video series covering the basics of calculus", "https://example.com/calculus-intro"),
    Recommendation(2, "Advanced Problem Solving Techniques", "practice",
      "Interactive exercises to improve problem-solving skills", "https://example.com/problem-solving"),
    Recommendation(3, "Mathematical Thinking: A Comprehensive Guide", "book",
      "An e-book that develops mathematical reasoning skills", "https://example.com/math-thinking"),
    Recommendation(4, "Real-world Applications of Mathematics", "article",
      "Learn how mathematical concepts apply to everyday situations", "https://example.com/math-applications")
  ]

  /** The request names a student other than the caller. */
  predicate ForSomeoneElse(c: Caller, b: RecommendationRequest) {
    Truthy(b.studentId) && b.studentId.value != c.id
  }

  function Recommend(caller: Option<Caller>, body: Option<RecommendationRequest>, snap: Snapshot): (r: Response<seq<Recommendation>>)
    ensures caller.None? ==> r == Error(401, Unauthorized)
    ensures caller.Some? && body.None? ==> r == Error(500, GenerateFailed)
    ensures caller.Some? && body.Some? && !Truthy(body.value.subject) ==> r == Error(400, SubjectRequired)
    ensures caller.Some? && body.Some? && Truthy(body.value.subject) ==>
      var c := caller.value;
      var b := body.value;
      var role := EffectiveRole(c);
      && (!ForSomeoneElse(c, b) ==> r.Ok?)
      && (ForSomeoneElse(c, b) && role == "student" ==> r == Error(403, SelfOnly))
      && (ForSomeoneElse(c, b) && role == "parent" ==>
            (r.Ok? <==> ParentLink(c.id, b.studentId.value) in snap.links))
      && (ForSomeoneElse(c, b) && role == "tutor" ==>
            (r.Ok? <==> HaveSharedSession(snap.sessions, c.id, b.studentId.value)))
      && (role !in {"student", "parent", "tutor"} ==> r.Ok?)
      && (r.Error? && role == "parent" ==> r == Error(403, ChildrenOnly))
      && (r.Error? && role == "tutor" ==> r == Error(403, StudentsOnly))
    ensures r.Ok? ==> r == Ok(200, SampleRecommendations)
  {
    if caller.None? then Error(401, Unauthorized)
    else if body.None? then Error(500, GenerateFailed)
    else
      var c := caller.value;
      var b := body.value;
      if !Truthy(b.subject) then Error(400, SubjectRequired)
      else if !ForSomeoneElse(c, b) then Ok(200, SampleRecommendations)
      else
        match RoleCheck(EffectiveRole(c), c.id, b.studentId.value, snap)
        case NotSelf => Error(403, SelfOnly)
        case NotChild => Error(403, ChildrenOnly)
        case NotOwnStudent => Error(403, StudentsOnly)
        case Allowed => Ok(200, SampleRecommendations)
  }

  /** The subject check comes before the permission check: a student asking
      for someone else without a subject gets 400, not 403. */
  lemma SubjectCheckedFirst(c: Caller, studentId: string, snap: Snapshot)
    requires EffectiveRole(c) == "student" && studentId != "" && studentId != c.id
    ensures Recommend(Some(c), Some(RecommendationRequest(None, Some(studentId))), snap) == Error(400, SubjectRequired)
    ensures Recommend(Some(c), Some(RecommendationRequest(Some("Math"), Some(studentId))), snap) == Error(403, SelfOnly)
  {
  }

  /** Unlike the progress report, asking for oneself needs no link: every role
      gets the list, whatever the tables hold. */
  lemma OwnRequestAlwaysServed(c: Caller, subject: string, snap: Snapshot)
    requires subject != ""
    ensures Recommend(Some(c), Some(RecommendationRequest(Some(subject), None)), snap).Ok?
    ensures Recommend(Some(c), Some(RecommendationRequest(Some(subject), Some(c.id))), snap).Ok?
  {
  }

  /** The sample list has four entries with the distinct ids 1 to 4. */
  lemma SampleIdsDistinct()
    ensures |SampleRecommendations| == 4
    ensures forall i :: 0 <= i < 4 ==> SampleRecommendations[i].id == i + 1
  {
  }
}
