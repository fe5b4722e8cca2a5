/** The mock quiz generator behind `POST /api/ai/quiz`: request validation,
    the split of the question count into multiple-choice and short-answer
    questions, and the construction of each question. */
module Quiz {
  import opened Common
  import opened Strings
  import opened Records

  datatype AnswerOption = AnswerOption(id: string, text: string)

  datatype Question =
    | MultipleChoice(id: string, text: string, options: seq<AnswerOption>, correctAnswer: string)
    | ShortAnswer(id: string, text: string, sampleAnswer: string)

  datatype QuizDoc = QuizDoc(title: string, subject: string, questions: seq<Question>)

  /** The JSON body. `questionCount` defaults to 5 and both type switches
      default to true, but only when the field is absent. The count is
      held as the text its `toString()` gives: the decimal form of a JSON
      number, a JSON string itself. */
  datatype QuizRequest = QuizRequest(
    subject: Option<string>,
    topic: Option<string>,
    questionCount: Field<string>,
    includeMultipleChoice: Field<bool>,
    includeShortAnswer: Field<bool>)

  const SubjectAndTopicRequired := "Subject and topic are required"
  const NoQuestionType := "At least one question type must be selected"
  const GenerationFailed := "Failed to generate quiz"

  /** A type switch after its default: absent means on, null means off. */
  function Switch(f: Field<bool>): bool {
    match f
    case Absent => true
    case Null => false
    case Present(b) => b
  }

  /** `Math.ceil(n / 2)` for an integer `n`. */
  function HalfUp(n: int): (r: int)
    ensures r * 2 == n || r * 2 == n + 1
  {
    (n + 1) / 2
  }

  /** `mcCount`: half the questions, rounded up, when multiple choice is on. */
  function McCount(count: int, mc: bool): int {
    if mc then HalfUp(count) else 0
  }

  /** `saCount`: the rest when short answer is on, and `count` otherwise. */
  function SaCount(count: int, mc: bool, sa: bool): int {
    if sa then count - McCount(count, mc) else count
  }

  /** Number of iterations of `for (let i = 0; i < n; i++)`. */
  function Iterations(n: int): nat {
    if n < 0 then 0 else n
  }

  const StandardOptions: seq<AnswerOption> := [
    AnswerOption("a", "Answer option A"),
    AnswerOption("b", "Answer option B"),
    AnswerOption("c", "Answer option C"),
    AnswerOption("d", "Answer option D")
  ]

  function McQuestion(topic: string, i: nat): Question {
    MultipleChoice(
      "mc-" + NatToString(i),
      "Sample multiple choice question about " + topic + " (#" + NatToString(i + 1) + ")",
      StandardOptions,
      "b")
  }

  function SaQuestion(topic: string, i: nat): Question {
    ShortAnswer(
      "sa-" + NatToString(i),
      "Sample short answer question about " + topic + " (#" + NatToString(i + 1) + ")",
      "This is a sample answer for the question about " + topic + ".")
  }

  /** The two generation loops: `m` multiple-choice questions, then `s`
      short-answer ones. */
  function BuildQuestions(topic: string, m: nat, s: nat): (qs: seq<Question>)
    ensures |qs| == m + s
    ensures forall i :: 0 <= i < m ==> qs[i] == McQuestion(topic, i)
    ensures forall i :: m <= i < m + s ==> qs[i] == SaQuestion(topic, i - m)
  {
    seq(m, i requires 0 <= i < m => McQuestion(topic, i))
    + seq(s, i requires 0 <= i < s => SaQuestion(topic, i))
  }

  /** The quiz the generator returns once the request has been validated. */
  function ComposeQuiz(subject: string, topic: string, count: int, mc: bool, sa: bool): (q: QuizDoc)
    ensures q.title == topic + " Quiz" && q.subject == subject
    ensures |q.questions| == Iterations(McCount(count, mc)) + Iterations(SaCount(count, mc, sa))
  {
    QuizDoc(topic + " Quiz", subject,
      BuildQuestions(topic, Iterations(McCount(count, mc)), Iterations(SaCount(count, mc, sa))))
  }

  /** The quiz for the count `parseInt` read. `None` is `NaN`: `i < NaN`
      is false, so neither loop runs. */
  function QuizFor(subject: string, topic: string, count: Option<int>, mc: bool, sa: bool): (q: QuizDoc)
    ensures q.title == topic + " Quiz" && q.subject == subject
    ensures count.None? ==> q.questions == []
  {
    match count
    case None => QuizDoc(topic + " Quiz", subject, [])
    case Some(n) => ComposeQuiz(subject, topic, n, mc, sa)
  }

  /** `parseInt(questionCount.toString())` once the default of 5 applied;
      `null` has no count, since its `toString()` throws. */
  function CountOf(f: Field<string>): Option<int>
    requires !f.Null?
  {
    match f
    case Absent => Some(5)
    case Present(text) => ParseInt(text)
  }

  /** `POST /api/ai/quiz`. `caller` is `None` when no user is signed in;
      `body` is `None` when the body is not JSON (the catch block). */
  function QuizPost(caller: Option<Caller>, body: Option<QuizRequest>): (r: Response<QuizDoc>)
    ensures caller.None? ==> r == Error(401, Unauthorized)
    ensures caller.Some? && body.None? ==> r == Error(500, GenerationFailed)
    ensures caller.Some? && body.Some? && (!Truthy(body.value.subject) || !Truthy(body.value.topic))
      ==> r == Error(400, SubjectAndTopicRequired)
    ensures caller.Some? && body.Some? && Truthy(body.value.subject) && Truthy(body.value.topic)
      && !Switch(body.value.includeMultipleChoice) && !Switch(body.value.includeShortAnswer)
      ==> r == Error(400, NoQuestionType)
    ensures r.Ok? ==> r.status == 200 && body.Some? && body.value.questionCount != Null
    ensures r.Ok? ==> (r.body.subject == body.value.subject.value
      && r.body.title == body.value.topic.value + " Quiz")
    ensures caller.Some? && body.Some? && Truthy(body.value.subject) && Truthy(body.value.topic)
      && (Switch(body.value.includeMultipleChoice) || Switch(body.value.includeShortAnswer))
      ==> (r.Ok? <==> body.value.questionCount != Null)
    ensures r.Ok? ==> r.body == QuizFor(body.value.subject.value, body.value.topic.value,
      CountOf(body.value.questionCount),
      Switch(body.value.includeMultipleChoice), Switch(body.value.includeShortAnswer))
    ensures !r.Ok? && caller.Some? && body.Some? && Truthy(body.value.subject) && Truthy(body.value.topic)
      && (Switch(body.value.includeMultipleChoice) || Switch(body.value.includeShortAnswer))
      ==> r == Error(500, GenerationFailed)
  {
    if caller.None? then Error(401, Unauthorized)
    else if body.None? then Error(500, GenerationFailed)
    else
      var b := body.value;
      if !Truthy(b.subject) || !Truthy(b.topic) then Error(400, SubjectAndTopicRequired)
      else if !Switch(b.includeMultipleChoice) && !Switch(b.includeShortAnswer) then Error(400, NoQuestionType)
      else match b.questionCount
        case Null => Error(500, GenerationFailed)  // null.toString() throws
        case _ => Ok(200, QuizFor(b.subject.value, b.topic.value, CountOf(b.questionCount),
                                  Switch(b.includeMultipleChoice), Switch(b.includeShortAnswer)))
  }

  predicate IsMultipleChoice(q: Question) {
    q.MultipleChoice?
  }

  // ---------------------------------------------------------------------
  // Properties of the split

  /** With both types on, the quiz holds exactly `count` questions:
      ceil(count/2) multiple choice and the rest short answer. */
  lemma BothTypesSplit(subject: string, topic: string, count: nat)
    ensures var q := ComposeQuiz(subject, topic, count, true, true);
      && |q.questions| == count
      && (forall i :: 0 <= i < HalfUp(count) ==> IsMultipleChoice(q.questions[i]))
      && (forall i :: HalfUp(count) <= i < count ==> !IsMultipleChoice(q.questions[i]))
  {
  }

  /** With only short answer on, every one of the `count` questions is short answer. */
  lemma ShortAnswerOnly(subject: string, topic: string, count: nat)
    ensures var q := ComposeQuiz(subject, topic, count, false, true);
      && |q.questions| == count
      && forall i :: 0 <= i < count ==> q.questions[i] == SaQuestion(topic, i)
  {
  }

  /** With only multiple choice on, `saCount` is still `count`, so the quiz
      has count + ceil(count/2) questions, `count` of them short answer. */
  lemma MultipleChoiceOnly(subject: string, topic: string, count: nat)
    ensures var q := ComposeQuiz(subject, topic, count, true, false);
      && |q.questions| == count + HalfUp(count)
      && (forall i :: 0 <= i < HalfUp(count) ==> IsMultipleChoice(q.questions[i]))
      && (forall i :: HalfUp(count) <= i < |q.questions| ==> q.questions[i] == SaQuestion(topic, i - HalfUp(count)))
  {
  }

  /** A request that names only subject and topic gets 3 multiple-choice
      and 2 short-answer questions. */
  lemma DefaultsGiveThreePlusTwo(caller: Caller, subject: string, topic: string)
    requires subject != "" && topic != ""
    ensures var r := QuizPost(Some(caller), Some(QuizRequest(Some(subject), Some(topic), Absent, Absent, Absent)));
      && r.Ok?
      && |r.body.questions| == 5
      && (forall i :: 0 <= i < 3 ==> r.body.questions[i] == McQuestion(topic, i))
      && (forall i :: 3 <= i < 5 ==> r.body.questions[i] == SaQuestion(topic, i - 3))
  {
  }

  /** A count sent as a number or as the same digits in a string gives the
      quiz for that number, and a fraction gives the quiz for its integer
      part. */
  lemma CountTextParsed(caller: Caller, subject: string, topic: string, mc: bool, sa: bool, n: int, tail: string)
    requires subject != "" && topic != "" && (mc || sa)
    requires tail == [] || (tail[0] == '.' && AllDigits(tail[1..]))
    ensures QuizPost(Some(caller), Some(QuizRequest(Some(subject), Some(topic), Present(IntToString(n) + tail),
                                                    Present(mc), Present(sa))))
         == Ok(200, ComposeQuiz(subject, topic, n, mc, sa))
  {
    ParseIntReadsLeadingInteger(n, tail);
  }

  /** A count that `parseInt` cannot read ("abc", "") still gets 200, with
      a quiz that has no questions. */
  lemma NaNCountGivesEmptyQuiz(caller: Caller, subject: string, topic: string, mc: bool, sa: bool, text: string)
    requires subject != "" && topic != "" && (mc || sa)
    requires ParseInt(text).None?
    ensures var r := QuizPost(Some(caller), Some(QuizRequest(Some(subject), Some(topic), Present(text),
                                                             Present(mc), Present(sa))));
      && r == Ok(200, QuizDoc(topic + " Quiz", subject, []))
  {
  }

  /** "abc" is such a count. */
  lemma LettersAreNaN()
    ensures ParseInt("abc").None?
  {
  }

  /** A negative count yields no questions whichever types are on. */
  lemma NegativeCountIsEmpty(subject: string, topic: string, count: int, mc: bool, sa: bool)
    requires count < 0
    ensures ComposeQuiz(subject, topic, count, mc, sa).questions == []
  {
  }

  // ---------------------------------------------------------------------
  // Properties of the questions

  /** Multiple-choice questions come first, then short-answer ones. */
  lemma MultipleChoiceFirst(subject: string, topic: string, count: int, mc: bool, sa: bool, i: int, j: int)
    requires var q := ComposeQuiz(subject, topic, count, mc, sa); 0 <= i < j < |q.questions|
    requires !IsMultipleChoice(ComposeQuiz(subject, topic, count, mc, sa).questions[i])
    ensures !IsMultipleChoice(ComposeQuiz(subject, topic, count, mc, sa).questions[j])
  {
  }

  /** Every multiple-choice question offers options a, b, c, d and expects "b". */
  lemma ChoicesAreFixed(subject: string, topic: string, count: int, mc: bool, sa: bool, i: int)
    requires var q := ComposeQuiz(subject, topic, count, mc, sa); 0 <= i < |q.questions| && IsMultipleChoice(q.questions[i])
    ensures var q := ComposeQuiz(subject, topic, count, mc, sa).questions[i];
      && |q.options| == 4
      && q.options[0].id == "a" && q.options[1].id == "b" && q.options[2].id == "c" && q.options[3].id == "d"
      && q.correctAnswer == "b"
  {
  }

  /** The ids `mc-0 … mc-(m-1)` and `sa-0 … sa-(s-1)` are pairwise distinct. */
  lemma {:induction false} QuestionIdsDistinct(topic: string, m: nat, s: nat, i: int, j: int)
    requires 0 <= i < j < m + s
    ensures BuildQuestions(topic, m, s)[i].id != BuildQuestions(topic, m, s)[j].id
  {
    var qs := BuildQuestions(topic, m, s);
    if j < m {
      NatToStringInjective(i, j);
      PrefixedDiffer("mc-", NatToString(i), NatToString(j));
    } else if i >= m {
      NatToStringInjective(i - m, j - m);
      PrefixedDiffer("sa-", NatToString(i - m), NatToString(j - m));
    } else {
      assert qs[i].id[0..2] == "mc";
      assert qs[j].id[0..2] == "sa";
    }
  }

  lemma PrefixedDiffer(p: string, a: string, b: string)
    requires a != b
    ensures p + a != p + b
  {
    assert (p + a)[|p|..] == a;
    assert (p + b)[|p|..] == b;
  }
}

/** The edge-function twin of the quiz route (`Deno.serve` handler): no
    sign-in check, a CORS pre-flight, CORS headers on every reply, and the
    same quiz composition. */
module QuizEdge {
  import opened Common
  import opened Quiz

  /** The parsed body, or the message of the exception that parsing raised. */
  datatype Parsed<T> = Parsed(value: T) | Unparsable(message: string)

  /** The body; `studentLevel` (default "intermediate") is destructured
      and then never used. */
  datatype EdgeQuizRequest = EdgeQuizRequest(fields: QuizRequest, studentLevel: Field<string>)

  datatype EdgeRequest = EdgeRequest(verb: string, body: Parsed<EdgeQuizRequest>)

  datatype EdgeBody = Text(text: string) | QuizJson(quiz: QuizDoc) | ErrorJson(error: string)

  datatype EdgeResponse = EdgeResponse(status: int, headers: seq<(string, string)>, body: EdgeBody)

  const AllowOrigin: (string, string) := ("Access-Control-Allow-Origin", "*")
  const PreflightHeaders: seq<(string, string)> :=
    [AllowOrigin, ("Access-Control-Allow-Headers", "authorization, x-client-info, apikey, content-type")]
  const JsonHeaders: seq<(string, string)> := [AllowOrigin, ("Content-Type", "application/json")]

  /** The message the runtime gives `null.toString()`. */
  const NullToStringMessage := "Cannot read properties of null (reading 'toString')"

  /** The catch block: `error.message || "Failed to generate quiz"`. */
  function Failure(message: string): (r: EdgeResponse)
    ensures r.status == 500 && r.headers == JsonHeaders
  {
    EdgeResponse(500, JsonHeaders, ErrorJson(if message != "" then message else GenerationFailed))
  }

  function Serve(req: EdgeRequest): (r: EdgeResponse)
    ensures req.verb == "OPTIONS" ==> r == EdgeResponse(200, PreflightHeaders, Text("ok"))
    ensures req.verb != "OPTIONS" && req.body.Unparsable? ==> r.status == 500
    ensures AllowOrigin in r.headers
    ensures r.status in {200, 400, 500}
    ensures r.status == 200 && req.verb != "OPTIONS" ==> r.body.QuizJson?
  {
    if req.verb == "OPTIONS" then EdgeResponse(200, PreflightHeaders, Text("ok"))
    else match req.body
      case Unparsable(msg) => Failure(msg)
      case Parsed(b) =>
        var f := b.fields;
        if !Truthy(f.subject) || !Truthy(f.topic) then
          EdgeResponse(400, JsonHeaders, ErrorJson(SubjectAndTopicRequired))
        else if !Switch(f.includeMultipleChoice) && !Switch(f.includeShortAnswer) then
          EdgeResponse(400, JsonHeaders, ErrorJson(NoQuestionType))
        else match f.questionCount
          case Null => Failure(NullToStringMessage)
          case _ => EdgeResponse(200, JsonHeaders, QuizJson(QuizFor(f.subject.value, f.topic.value, CountOf(f.questionCount),
                                                                    Switch(f.includeMultipleChoice), Switch(f.includeShortAnswer))))
  }

  /** The edge function and the signed-in route agree on every request
      body: same status, and on success the same quiz. */
  lemma SameQuizAsRoute(caller: Records.Caller, fields: QuizRequest, level: Field<string>)
    ensures var e := Serve(EdgeRequest("POST", Parsed(EdgeQuizRequest(fields, level))));
      var r := QuizPost(Some(caller), Some(fields));
      && e.status == r.Status()
      && (r.Ok? <==> e.body.QuizJson?)
      && (r.Ok? ==> e.body.quiz == r.body)
  {
  }

  /** The student level has no effect on the reply. */
  lemma LevelIsIgnored(verb: string, fields: QuizRequest, l1: Field<string>, l2: Field<string>)
    ensures Serve(EdgeRequest(verb, Parsed(EdgeQuizRequest(fields, l1))))
         == Serve(EdgeRequest(verb, Parsed(EdgeQuizRequest(fields, l2))))
  {
  }
}
