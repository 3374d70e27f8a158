/** The forms-API client (apps/web/src/lib/tally.ts): normalises raw submissions into
    answers of five shapes and pages through the API, collecting question metadata.
    The HTTP exchange is replaced by the sequence of replies the API gives, in request order. */
module TallyClient {
  import opened Wrappers
  import opened JsRuntime

  const DefaultFormId: string := "wor9ON"
  const UnknownQuestionLabel: string := "Unknown question"
  const DefaultQuestionType: string := "text"
  const MissingApiKeyMessage: string := "Missing TALLY_API_KEY environment variable."

  // ---------------------------------------------------------------- API payload shapes

  datatype TallyQuestionField = TallyQuestionField(
    uuid: Option<string>, fieldType: Option<string>, questionType: Option<string>, title: Option<string>)

  datatype TallyQuestion = TallyQuestion(
    id: string, title: Option<string>, questionType: Option<string>, fields: Option<seq<TallyQuestionField>>)

  datatype TallyResponse = TallyResponse(
    id: Option<string>, questionId: Option<string>, answer: Option<Json>, value: Option<Json>)

  datatype TallySubmission = TallySubmission(
    id: string, formId: string, isCompleted: Option<bool>,
    submittedAt: Option<string>, createdAt: Option<string>, updatedAt: Option<string>,
    responses: Option<seq<TallyResponse>>)

  datatype TallyPage = TallyPage(
    hasMore: Option<bool>, questions: Option<seq<TallyQuestion>>, submissions: Option<seq<TallySubmission>>)

  // ---------------------------------------------------------------- normalised shapes

  /** `string | number | boolean | string[] | null` */
  datatype AnswerValue =
    | NullValue
    | Text(text: string)
    | Number(number: real)
    | Flag(flag: bool)
    | TextList(items: seq<string>)

  datatype NormalizedAnswer = NormalizedAnswer(key: string, questionLabel: string, questionType: string, value: AnswerValue)

  datatype NormalizedResponse = NormalizedResponse(
    id: string, formId: Option<string>, submittedAt: Option<string>, completed: Option<bool>,
    answers: seq<NormalizedAnswer>)

  datatype QuestionMetadata = QuestionMetadata(questionLabel: string, questionType: string)

  // ---------------------------------------------------------------- metadata

  function PrimaryField(q: TallyQuestion): Option<TallyQuestionField> {
    if q.fields.Some? && |q.fields.value| > 0 then Some(q.fields.value[0]) else None
  }

  /** Label: first field's title, else the question's title, else its id.
      Type: first field's questionType, else the question's type, else "text". */
  function ExtractQuestionMetadata(question: Option<TallyQuestion>): (m: QuestionMetadata)
    ensures question.None? ==> m == QuestionMetadata(UnknownQuestionLabel, DefaultQuestionType)
    ensures question.Some? ==>
      var q, f := question.value, PrimaryField(question.value);
      && (f.Some? && f.value.title.Some? ==> m.questionLabel == f.value.title.value)
      && (!(f.Some? && f.value.title.Some?) && q.title.Some? ==> m.questionLabel == q.title.value)
      && (!(f.Some? && f.value.title.Some?) && q.title.None? ==> m.questionLabel == q.id)
      && (f.Some? && f.value.questionType.Some? ==> m.questionType == f.value.questionType.value)
      && (!(f.Some? && f.value.questionType.Some?) && q.questionType.Some? ==> m.questionType == q.questionType.value)
      && (!(f.Some? && f.value.questionType.Some?) && q.questionType.None? ==> m.questionType == DefaultQuestionType)
  {
    match question
    case None => QuestionMetadata(UnknownQuestionLabel, DefaultQuestionType)
    case Some(q) =>
      var f := PrimaryField(q);
      var fieldTitle := if f.Some? then f.value.title else None;
      var fieldType := if f.Some? then f.value.questionType else None;
      QuestionMetadata(fieldTitle.Or(q.title).GetOr(q.id), fieldType.Or(q.questionType).GetOr(DefaultQuestionType))
  }

  // ---------------------------------------------------------------- value coercion

  /** One element of an array answer; None stands for the `null` that `filter(Boolean)` drops. */
  function CoerceElement(entry: Json, rt: Runtime): Option<string> {
    match entry
    case JNull => None
    case JString(s) => Some(s)
    case JNumber(n) => Some(rt.numberToString(n))
    case JBool(b) => Some(BoolToString(b))
    case JObject(f) =>
      if "label" in f && f["label"].JString? then Some(f["label"].s)
      else if "text" in f && f["text"].JString? then Some(f["text"].s)
      else Some(rt.stringify(entry))
    case JArray(_) => Some(rt.stringify(entry))
  }

  /** `raw.map(...).filter(Boolean)`: element texts in order, without nulls and empty strings. */
  function CoerceList(items: seq<Json>, rt: Runtime): (r: seq<string>)
    ensures |r| <= |items|
    ensures forall k :: 0 <= k < |r| ==> r[k] != ""
  {
    if items == [] then []
    else
      var rest := CoerceList(items[1..], rt);
      match CoerceElement(items[0], rt)
      case Some(s) => if s != "" then [s] + rest else rest
      case None => rest
  }

  lemma {:induction false} CoerceListAppend(a: seq<Json>, b: seq<Json>, rt: Runtime)
    ensures CoerceList(a + b, rt) == CoerceList(a, rt) + CoerceList(b, rt)
  {
    if a == [] {
      assert a + b == b;
    } else {
      assert (a + b)[1..] == a[1..] + b;
      CoerceListAppend(a[1..], b, rt);
    }
  }

  predicate IsScalar(j: Json) {
    j.JString? || j.JNumber? || j.JBool?
  }

  /** `coerceValue`: scalars pass through, arrays become string lists, objects are projected
      through `text`, then `label`, then a scalar `value`, else printed as JSON. */
  function CoerceValue(raw: Json, rt: Runtime): (r: AnswerValue)
    ensures r.NullValue? <==> raw.JNull?
    ensures r.TextList? <==> raw.JArray?
    ensures r.TextList? ==> |r.items| <= |raw.items| && forall k :: 0 <= k < |r.items| ==> r.items[k] != ""
  {
    match raw
    case JNull => NullValue
    case JString(s) => Text(s)
    case JNumber(n) => Number(n)
    case JBool(b) => Flag(b)
    case JArray(items) => TextList(CoerceList(items, rt))
    case JObject(f) =>
      if "text" in f && f["text"].JString? then Text(f["text"].s)
      else if "label" in f && f["label"].JString? then Text(f["label"].s)
      else if "value" in f && IsScalar(f["value"]) then ScalarValue(f["value"])
      else Text(rt.stringify(raw))
  }

  function ScalarValue(j: Json): AnswerValue
    requires IsScalar(j)
  {
    match j
    case JString(s) => Text(s)
    case JNumber(n) => Number(n)
    case JBool(b) => Flag(b)
  }

  /** The JSON a normalised value would be sent as. */
  function ToJson(v: AnswerValue): Json {
    match v
    case NullValue => JNull
    case Text(s) => JString(s)
    case Number(n) => JNumber(n)
    case Flag(b) => JBool(b)
    case TextList(items) => JArray(seq(|items|, k requires 0 <= k < |items| => JString(items[k])))
  }

  lemma {:induction false} CoerceListOfStrings(items: seq<string>, rt: Runtime)
    requires forall k :: 0 <= k < |items| ==> items[k] != ""
    ensures CoerceList(seq(|items|, k requires 0 <= k < |items| => JString(items[k])), rt) == items
  {
    var js := seq(|items|, k requires 0 <= k < |items| => JString(items[k]));
    if items != [] {
      assert js[1..] == seq(|items[1..]|, k requires 0 <= k < |items[1..]| => JString(items[1..][k]));
      CoerceListOfStrings(items[1..], rt);
    }
  }

  /** Coercion is the identity on values already in normal form (lists without empty entries). */
  lemma CoerceValueRoundTrip(v: AnswerValue, rt: Runtime)
    requires v.TextList? ==> forall k :: 0 <= k < |v.items| ==> v.items[k] != ""
    ensures CoerceValue(ToJson(v), rt) == v
  {
    if v.TextList? {
      CoerceListOfStrings(v.items, rt);
    }
  }

  // ---------------------------------------------------------------- answers and submissions

  predicate IsNullish(j: Option<Json>) {
    j.None? || j.value.JNull?
  }

  /** `response.answer ?? response.value ?? null` */
  function RawValue(response: TallyResponse): (raw: Json)
    ensures !IsNullish(response.answer) ==> raw == response.answer.value
    ensures IsNullish(response.answer) && !IsNullish(response.value) ==> raw == response.value.value
    ensures IsNullish(response.answer) && IsNullish(response.value) ==> raw == JNull
  {
    if !IsNullish(response.answer) then response.answer.value
    else if !IsNullish(response.value) then response.value.value
    else JNull
  }

  /** `questionMap.get(response.questionId)` */
  function LookupQuestion(questionMap: map<string, TallyQuestion>, questionId: Option<string>): Option<TallyQuestion> {
    if questionId.Some? && questionId.value in questionMap then Some(questionMap[questionId.value]) else None
  }

  /** `normalizeAnswer`: no answer when `questionId ?? id` is missing or empty. */
  function NormalizeAnswer(response: TallyResponse, question: Option<TallyQuestion>, rt: Runtime): (r: Option<NormalizedAnswer>)
    ensures var key := response.questionId.Or(response.id);
      && (r.Some? <==> key.Some? && key.value != "")
      && (r.Some? ==> r.value.key == key.value)
    ensures r.Some? ==> (QuestionMetadata(r.value.questionLabel, r.value.questionType) == ExtractQuestionMetadata(question)
                         && r.value.value == CoerceValue(RawValue(response), rt))
  {
    var key := response.questionId.Or(response.id);
    if key.None? || key.value == "" then None
    else
      var meta := ExtractQuestionMetadata(question);
      Some(NormalizedAnswer(key.value, meta.questionLabel, meta.questionType, CoerceValue(RawValue(response), rt)))
  }

  function NormalizeAnswers(responses: seq<TallyResponse>, questionMap: map<string, TallyQuestion>, rt: Runtime)
    : (r: seq<NormalizedAnswer>)
    ensures |r| <= |responses|
    ensures forall k :: 0 <= k < |r| ==> r[k].key != ""
  {
    if responses == [] then []
    else
      var rest := NormalizeAnswers(responses[1..], questionMap, rt);
      match NormalizeAnswer(responses[0], LookupQuestion(questionMap, responses[0].questionId), rt)
      case Some(a) => [a] + rest
      case None => rest
  }

  /** The response carries a key: `questionId ?? id` is present and non-empty. */
  predicate Named(response: TallyResponse) {
    var key := response.questionId.Or(response.id);
    key.Some? && key.value != ""
  }

  /** The responses that carry a key, in their order. */
  function NamedResponses(responses: seq<TallyResponse>): (r: seq<TallyResponse>)
    ensures |r| <= |responses|
    ensures forall x :: x in r <==> x in responses && Named(x)
  {
    if responses == [] then []
    else
      var rest := NamedResponses(responses[1..]);
      assert responses == [responses[0]] + responses[1..];
      if Named(responses[0]) then [responses[0]] + rest else rest
  }

  /** The answers are those of the responses that carry a key, one each and in order: exactly
      the keyless responses are dropped. */
  lemma {:induction false} NormalizeAnswersSpec(responses: seq<TallyResponse>, questionMap: map<string, TallyQuestion>, rt: Runtime)
    ensures var r, named := NormalizeAnswers(responses, questionMap, rt), NamedResponses(responses);
      && |r| == |named|
      && forall k :: 0 <= k < |r| ==>
           Some(r[k]) == NormalizeAnswer(named[k], LookupQuestion(questionMap, named[k].questionId), rt)
  {
    if responses != [] {
      var head, tail := responses[0], responses[1..];
      NormalizeAnswersSpec(tail, questionMap, rt);
      var answer := NormalizeAnswer(head, LookupQuestion(questionMap, head.questionId), rt);
      var rest, named := NormalizeAnswers(tail, questionMap, rt), NamedResponses(tail);
      assert answer.Some? <==> Named(head);
      if answer.Some? {
        assert NormalizeAnswers(responses, questionMap, rt) == [answer.value] + rest;
        assert NamedResponses(responses) == [head] + named;
      } else {
        assert NormalizeAnswers(responses, questionMap, rt) == rest;
        assert NamedResponses(responses) == named;
      }
    }
  }

  /** When every response names its question, answers correspond one-to-one and in order. */
  lemma {:induction false} NormalizeAnswersKeyed(responses: seq<TallyResponse>, questionMap: map<string, TallyQuestion>, rt: Runtime)
    requires forall k :: 0 <= k < |responses| ==> responses[k].questionId.Some? && responses[k].questionId.value != ""
    ensures var r := NormalizeAnswers(responses, questionMap, rt);
      && |r| == |responses|
      && forall k :: 0 <= k < |r| ==>
           && r[k].key == responses[k].questionId.value
           && QuestionMetadata(r[k].questionLabel, r[k].questionType)
              == ExtractQuestionMetadata(LookupQuestion(questionMap, responses[k].questionId))
           && r[k].value == CoerceValue(RawValue(responses[k]), rt)
  {
    if responses != [] {
      NormalizeAnswersKeyed(responses[1..], questionMap, rt);
    }
  }

  /** `normalizeSubmission` */
  function NormalizeSubmission(submission: TallySubmission, questionMap: map<string, TallyQuestion>, rt: Runtime)
    : (r: NormalizedResponse)
    ensures r.id == submission.id && r.completed == submission.isCompleted
    ensures r.submittedAt.Some? <==>
      submission.submittedAt.Some? || submission.updatedAt.Some? || submission.createdAt.Some?
    ensures r.formId == Some(submission.formId)
    ensures submission.submittedAt.Some? ==> r.submittedAt == submission.submittedAt
    ensures submission.submittedAt.None? && submission.updatedAt.Some? ==> r.submittedAt == submission.updatedAt
    ensures submission.submittedAt.None? && submission.updatedAt.None? ==> r.submittedAt == submission.createdAt
    ensures submission.responses.None? ==> r.answers == []
    ensures submission.responses.Some? ==>
      && |r.answers| <= |submission.responses.value|
      && r.answers == NormalizeAnswers(submission.responses.value, questionMap, rt)
  {
    NormalizedResponse(
      submission.id,
      Some(submission.formId),
      submission.submittedAt.Or(submission.updatedAt).Or(submission.createdAt),
      submission.isCompleted,
      if submission.responses.Some? then NormalizeAnswers(submission.responses.value, questionMap, rt) else [])
  }

  function NormalizeAll(submissions: seq<TallySubmission>, questionMap: map<string, TallyQuestion>, rt: Runtime)
    : (r: seq<NormalizedResponse>)
    ensures |r| == |submissions|
  {
    seq(|submissions|, k requires 0 <= k < |submissions| => NormalizeSubmission(submissions[k], questionMap, rt))
  }

  // ---------------------------------------------------------------- paging

  /** What one page request returned: a payload, or a non-2xx status with the status text and
      the body (None when the body is not JSON). */
  datatype PageReply =
    | Ok(payload: TallyPage)
    | Failed(status: int, statusText: string, body: Option<Json>)

  datatype FetchError =
    | ConfigurationError(message: string)
    | TallyApiError(message: string, status: int)

  datatype FetchOptions = FetchOptions(formId: Option<string>, startPage: Option<int>)

  datatype PageRequest = PageRequest(formId: string, page: int)

  /** `safeParseError`: the body's string `message`, else its string `error`, else the body as
      JSON; a body that is not JSON, or is `null` (reading a field of it throws), gives the
      status text, or "Unknown error" when that is empty. */
  function SafeParseError(statusText: string, body: Option<Json>, rt: Runtime): string {
    var fallback := if statusText != "" then statusText else "Unknown error";
    match body
    case None => fallback
    case Some(JNull) => fallback
    case Some(JObject(f)) =>
      if "message" in f && f["message"].JString? then f["message"].s
      else if "error" in f && f["error"].JString? then f["error"].s
      else rt.stringify(body.value)
    case Some(data) => rt.stringify(data)
  }

  function ApiErrorOf(reply: PageReply, rt: Runtime): (e: FetchError)
    requires reply.Failed?
    ensures e.TallyApiError? && e.status == reply.status
  {
    TallyApiError(
      "Failed to fetch Tally responses (status " + IntToString(reply.status) + "): "
        + SafeParseError(reply.statusText, reply.body, rt),
      reply.status)
  }

  /** The loop ends on a failed page or on a payload whose `hasMore` is not true. */
  predicate StopsAt(reply: PageReply) {
    reply.Failed? || reply.payload.hasMore != Some(true)
  }

  /** The replies the API gives to successive page requests: every reply but the last asks for
      more, and the last stops the loop (an API that never stops would keep the source's loop
      running forever). */
  ghost predicate PagedReplies(pages: seq<PageReply>) {
    && |pages| > 0
    && StopsAt(pages[|pages| - 1])
    && forall k :: 0 <= k < |pages| - 1 ==> !StopsAt(pages[k])
  }

  function QuestionsOf(p: TallyPage): seq<TallyQuestion> { p.questions.GetOr([]) }
  function SubmissionsOf(p: TallyPage): seq<TallySubmission> { p.submissions.GetOr([]) }

  /** `questions.forEach(q => questionMap.set(q.id, q))` */
  function MergeQuestions(questionMap: map<string, TallyQuestion>, questions: seq<TallyQuestion>)
    : (r: map<string, TallyQuestion>)
    ensures r.Keys >= questionMap.Keys
    decreases |questions|
  {
    if questions == [] then questionMap
    else MergeQuestions(questionMap[questions[0].id := questions[0]], questions[1..])
  }

  /** A question id defined on the page maps to its last definition there; other ids keep
      their earlier definition. */
  lemma {:induction false} MergeQuestionsLookup(questionMap: map<string, TallyQuestion>, questions: seq<TallyQuestion>, id: string)
    ensures var r := MergeQuestions(questionMap, questions);
      && (id in r <==> id in questionMap || exists k :: 0 <= k < |questions| && questions[k].id == id)
      && (forall k :: (0 <= k < |questions| && questions[k].id == id
                       && (forall j :: k < j < |questions| ==> questions[j].id != id)) ==> r[id] == questions[k])
      && ((forall k :: 0 <= k < |questions| ==> questions[k].id != id) && id in questionMap ==> r[id] == questionMap[id])
    decreases |questions|
  {
    if questions != [] {
      var m := questionMap[questions[0].id := questions[0]];
      MergeQuestionsLookup(m, questions[1..], id);
      assert forall k :: 1 <= k < |questions| ==> questions[k] == questions[1..][k - 1];
      if exists k :: 0 <= k < |questions[1..]| && questions[1..][k].id == id {
        var k :| 0 <= k < |questions[1..]| && questions[1..][k].id == id;
        assert questions[k + 1].id == id;
      }
    }
  }

  /** The question map and the results after the payload of one page. */
  datatype Progress = Progress(questionMap: map<string, TallyQuestion>, results: seq<NormalizedResponse>)

  function AfterPage(p: TallyPage, before: Progress, rt: Runtime): (after: Progress)
    ensures after.questionMap.Keys >= before.questionMap.Keys
    ensures before.results <= after.results
  {
    var questions := MergeQuestions(before.questionMap, QuestionsOf(p));
    Progress(questions, before.results + NormalizeAll(SubmissionsOf(p), questions, rt))
  }

  /** The progress after the first `n` pages, which all carried a payload. */
  function ProgressBefore(pages: seq<PageReply>, n: nat, rt: Runtime): Progress
    requires n <= |pages| && forall k :: 0 <= k < n ==> pages[k].Ok?
  {
    if n == 0 then Progress(map[], [])
    else AfterPage(pages[n - 1].payload, ProgressBefore(pages, n - 1, rt), rt)
  }

  /** The number of submissions on the first `n` pages. */
  function SubmissionCount(pages: seq<PageReply>, n: nat): nat
    requires n <= |pages| && forall k :: 0 <= k < n ==> pages[k].Ok?
  {
    if n == 0 then 0 else SubmissionCount(pages, n - 1) + |SubmissionsOf(pages[n - 1].payload)|
  }

  /** Each page adds exactly its own submissions, after those of the earlier pages, and never
      forgets a question id. */
  lemma {:induction false} ProgressBeforeGrows(pages: seq<PageReply>, m: nat, n: nat, rt: Runtime)
    requires m <= n <= |pages| && forall k :: 0 <= k < n ==> pages[k].Ok?
    ensures |ProgressBefore(pages, n, rt).results| == SubmissionCount(pages, n)
    ensures ProgressBefore(pages, m, rt).results <= ProgressBefore(pages, n, rt).results
    ensures ProgressBefore(pages, m, rt).questionMap.Keys <= ProgressBefore(pages, n, rt).questionMap.Keys
    decreases n
  {
    if n > 0 {
      if m == n {
        ProgressBeforeGrows(pages, m - 1, n - 1, rt);
      } else {
        ProgressBeforeGrows(pages, m, n - 1, rt);
      }
    }
  }

  /** `fetchFormResponses`: requests pages from `startPage` (default 1) until a page says it is
      the last; a missing API key fails before any request. */
  method FetchFormResponses(apiKey: Option<string>, envFormId: Option<string>, options: FetchOptions,
                            pages: seq<PageReply>, rt: Runtime)
    returns (r: Result<seq<NormalizedResponse>, FetchError>, requested: seq<PageRequest>)
    requires PagedReplies(pages)
    ensures apiKey.None? || apiKey.value == "" ==>
      r == Failure(ConfigurationError(MissingApiKeyMessage)) && requested == []
    ensures apiKey.Some? && apiKey.value != "" ==>
      && (pages[|pages| - 1].Failed? ==> r == Failure(ApiErrorOf(pages[|pages| - 1], rt)))
      && (pages[|pages| - 1].Ok? ==> r == Success(ProgressBefore(pages, |pages|, rt).results))
      && |requested| == |pages|
      && forall k :: 0 <= k < |requested| ==>
           requested[k] == PageRequest(options.formId.Or(envFormId).GetOr(DefaultFormId),
                                       options.startPage.GetOr(1) + k)
  {
    requested := [];
    if apiKey.None? || apiKey.value == "" {
      r := Failure(ConfigurationError(MissingApiKeyMessage));
      return;
    }
    var formId := options.formId.Or(envFormId).GetOr(DefaultFormId);
    var start := options.startPage.GetOr(1);

    var results: seq<NormalizedResponse> := [];
    var questionMap: map<string, TallyQuestion> := map[];
    var page := start;
    var hasMore := true;
    var i := 0;
    ghost var stop := |pages| - 1;
    while hasMore
      invariant 0 <= i <= stop + 1
      invariant hasMore ==> i <= stop && page == start + i
      invariant forall k :: 0 <= k < i ==> pages[k].Ok?
      invariant Progress(questionMap, results) == ProgressBefore(pages, i, rt)
      invariant !hasMore ==> i == stop + 1 && pages[stop].Ok?
      invariant |requested| == i
      invariant forall k :: 0 <= k < i ==> requested[k] == PageRequest(formId, start + k)
      decreases stop + 1 - i
    {
      requested := requested + [PageRequest(formId, page)];
      var reply := pages[i];
      if reply.Failed? {
        r := Failure(ApiErrorOf(reply, rt));
        return;
      }
      var payload := reply.payload;
      questionMap := MergeQuestions(questionMap, QuestionsOf(payload));
      results := results + NormalizeAll(SubmissionsOf(payload), questionMap, rt);
      if payload.hasMore == Some(true) {
        page := page + 1;
      } else {
        hasMore := false;
      }
      i := i + 1;
    }
    r := Success(results);
  }
}
