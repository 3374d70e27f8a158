/** The AI commentary on the aggregated form data: the projection of the insights that goes
    into the prompt, and the fallbacks around the model call. The call itself is a parameter:
    its reply, or the fact that it failed. */
module TallySummary {
  import opened Wrappers
  import opened JsRuntime
  import opened Sorting
  import opened TallyInsights
  import opened TallyAggregate

  // ---------------------------------------------------------------- the prompt projection

  /** A question as the prompt shows it. */
  datatype PromptQuestion = PromptQuestion(
    questionLabel: string, responseCount: nat, topChoices: Option<seq<ChoiceStatistic>>,
    numericSummary: Option<NumericSummary>, textHighlights: Option<seq<string>>)

  datatype PromptData = PromptData(totals: Totals, topQuestions: seq<PromptQuestion>)

  /** `o?.slice(0, n)` */
  function TakeOpt<T>(o: Option<seq<T>>, n: nat): Option<seq<T>> {
    match o
    case None => None
    case Some(s) => Some(Take(s, n))
  }

  function Project(q: QuestionInsight): PromptQuestion {
    PromptQuestion(q.questionLabel, q.responseCount, TakeOpt(q.topChoices, 3), q.numericSummary,
      TakeOpt(q.textSamples, 2))
  }

  function ProjectAll(qs: seq<QuestionInsight>): (r: seq<PromptQuestion>)
    ensures |r| == |qs|
    ensures forall i :: 0 <= i < |qs| ==> r[i] == Project(qs[i])
  {
    if qs == [] then [] else ProjectAll(qs[..|qs| - 1]) + [Project(qs[|qs| - 1])]
  }

  /** `sanitizeInsights` */
  function SanitizeInsights(insights: AggregatedTallyData): PromptData {
    PromptData(insights.totals, ProjectAll(Take(insights.questions, 5)))
  }

  /** `o` is absent exactly when `orig` is, and otherwise a prefix of it of at most `n` items
      that is cut short only when the original is longer. */
  predicate CutFrom<T(==)>(o: Option<seq<T>>, orig: Option<seq<T>>, n: nat) {
    && (o.None? <==> orig.None?)
    && (o.Some? ==> o.value <= orig.value && |o.value| == if |orig.value| <= n then |orig.value| else n)
  }

  /** The projection passes the totals through and keeps the first five questions, each with
      its label, response count and numeric summary, at most three top choices and at most
      two text samples, the latter two being prefixes of the question's own. */
  lemma SanitizeInsightsSpec(insights: AggregatedTallyData)
    ensures var r := SanitizeInsights(insights);
      && r.totals == insights.totals
      && |r.topQuestions| == (if |insights.questions| <= 5 then |insights.questions| else 5)
      && forall i :: 0 <= i < |r.topQuestions| ==>
           var p, q := r.topQuestions[i], insights.questions[i];
           && p.questionLabel == q.questionLabel && p.responseCount == q.responseCount
           && p.numericSummary == q.numericSummary
           && CutFrom(p.topChoices, q.topChoices, 3) && CutFrom(p.textHighlights, q.textSamples, 2)
  {
    var qs := Take(insights.questions, 5);
    forall i | 0 <= i < |qs|
      ensures qs[i] == insights.questions[i]
    {
    }
  }

  // ---------------------------------------------------------------- the commentary

  const MissingKeyMessage: string := "Set OPENAI_API_KEY to enable AI-powered commentary."
  const BlankReplyMessage: string := "Insight summary unavailable."
  const ServiceErrorMessage: string := "Insight summary unavailable due to an AI service error."
  const FallbackModel: string := "gpt-4o-mini"

  /** `OPENAI_MODEL`, or the fallback model. */
  function DefaultModel(openAiModel: Option<string>): string {
    openAiModel.GetOr(FallbackModel)
  }

  /** What the model call produced: its text, or an error. */
  datatype ModelReply = ReplyText(text: string) | ReplyError

  datatype SummaryResult = SummaryResult(summary: string, model: Option<string>)

  /** `generateTallySummary` given the API key and model variables and the call's reply. */
  function GenerateTallySummary(apiKey: Option<string>, openAiModel: Option<string>, reply: ModelReply): SummaryResult {
    if apiKey.None? || apiKey.value == "" then SummaryResult(MissingKeyMessage, None)
    else
      match reply
      case ReplyError => SummaryResult(ServiceErrorMessage, None)
      case ReplyText(text) =>
        var t := Trim(text);
        SummaryResult(if t == "" then BlankReplyMessage else t, Some(DefaultModel(openAiModel)))
  }

  /** Without a key the fixed hint is returned and no model is named; a failed call gives the
      fixed degraded message, again with no model; a reply gives its trimmed text, or the
      unavailable message when that is blank, and names the model. The summary is never
      empty, and a summary taken from the reply neither starts nor ends with whitespace. */
  lemma GenerateTallySummarySpec(apiKey: Option<string>, openAiModel: Option<string>, reply: ModelReply)
    ensures var r := GenerateTallySummary(apiKey, openAiModel, reply);
      && (apiKey.None? || apiKey == Some("") ==> r == SummaryResult(MissingKeyMessage, None))
      && (apiKey.Some? && apiKey.value != "" && reply.ReplyError? ==> r == SummaryResult(ServiceErrorMessage, None))
      && (apiKey.Some? && apiKey.value != "" && reply.ReplyText? ==>
           && r.model == Some(DefaultModel(openAiModel))
           && (Trim(reply.text) == "" ==> r.summary == BlankReplyMessage)
           && (Trim(reply.text) != "" ==>
                && r.summary == Trim(reply.text)
                && !IsWhitespace(r.summary[0]) && !IsWhitespace(r.summary[|r.summary| - 1])))
      && r.summary != []
  {
    if apiKey.Some? && apiKey.value != "" && reply.ReplyText? {
      TrimSpec(reply.text);
    }
  }
}
