/** Aggregation of normalised responses into per-question statistics
    (apps/web/src/lib/tally-analytics.ts). Each question key owns an accumulator object that
    is updated in place, answer by answer; the accumulators are then finalised into insights
    sorted by label, beside the submission totals. */
module TallyAnalytics {
  import opened Wrappers
  import opened JsRuntime
  import opened Sorting
  import opened OrderedCounts
  import opened TallyClient

  const TextSampleLimit: nat := 3
  const TopChoiceLimit: nat := 5
  /** Respondent name, e-mail and LinkedIn questions, kept out of the statistics. */
  const ExcludedQuestionKeys: set<string> := {"Wz0E5Q", "QV0WQX", "7xZL1R"}

  // ---------------------------------------------------------------- question types

  const ChoiceWords: seq<string> := ["choice", "select", "dropdown", "checkbox", "radio"]
  const NumericWords: seq<string> := ["number", "rating", "score", "scale"]

  /** Some word of `words` occurs in `s`. */
  predicate MentionsAny(s: string, words: seq<string>) {
    exists k :: 0 <= k < |words| && Contains(s, words[k])
  }

  /** `isChoiceType`: the lower-cased type mentions choice, select, dropdown, checkbox or radio. */
  predicate IsChoiceType(questionType: string) {
    var normalized := ToLower(questionType);
    Contains(normalized, "choice") || Contains(normalized, "select") || Contains(normalized, "dropdown")
      || Contains(normalized, "checkbox") || Contains(normalized, "radio")
  }

  /** `isNumericType`: the lower-cased type mentions number, rating, score or scale. */
  predicate IsNumericType(questionType: string) {
    var normalized := ToLower(questionType);
    Contains(normalized, "number") || Contains(normalized, "rating") || Contains(normalized, "score")
      || Contains(normalized, "scale")
  }

  /** Both classifications ignore ASCII case and look for the words anywhere in the type. */
  lemma TypeClassification(questionType: string)
    ensures IsChoiceType(questionType) <==> MentionsAny(ToLower(questionType), ChoiceWords)
    ensures IsNumericType(questionType) <==> MentionsAny(ToLower(questionType), NumericWords)
    ensures IsChoiceType(ToLower(questionType)) == IsChoiceType(questionType)
    ensures IsNumericType(ToLower(questionType)) == IsNumericType(questionType)
  {
    ToLowerIdempotent(questionType);
    var n := ToLower(questionType);
    if MentionsAny(n, ChoiceWords) {
      var k :| 0 <= k < |ChoiceWords| && Contains(n, ChoiceWords[k]);
      assert k == 0 || k == 1 || k == 2 || k == 3 || k == 4;
    }
    if MentionsAny(n, NumericWords) {
      var k :| 0 <= k < |NumericWords| && Contains(n, NumericWords[k]);
      assert k == 0 || k == 1 || k == 2 || k == 3;
    }
    if IsChoiceType(questionType) {
      if Contains(n, "choice") { assert Contains(n, ChoiceWords[0]); }
      else if Contains(n, "select") { assert Contains(n, ChoiceWords[1]); }
      else if Contains(n, "dropdown") { assert Contains(n, ChoiceWords[2]); }
      else if Contains(n, "checkbox") { assert Contains(n, ChoiceWords[3]); }
      else { assert Contains(n, ChoiceWords[4]); }
    }
    if IsNumericType(questionType) {
      if Contains(n, "number") { assert Contains(n, NumericWords[0]); }
      else if Contains(n, "rating") { assert Contains(n, NumericWords[1]); }
      else if Contains(n, "score") { assert Contains(n, NumericWords[2]); }
      else { assert Contains(n, NumericWords[3]); }
    }
  }

  /** `normalizePercentage`: `count / total` as a percentage with one decimal; 0 when the total
      is not positive. */
  function NormalizePercentage(count: real, total: real): (p: real)
    ensures total <= 0.0 ==> p == 0.0
    ensures total > 0.0 ==> -0.05 <= p - count / total * 100.0 <= 0.05
    ensures total > 0.0 && count >= 0.0 ==> p >= 0.0
  {
    if total <= 0.0 then 0.0
    else
      assert count >= 0.0 ==> count / total >= 0.0;
      ToFixed1(count / total * 100.0)
  }

  // ---------------------------------------------------------------- one accumulator

  /** The fields of a question's accumulator. */
  datatype AccState = AccState(
    questionLabel: string,
    questionType: string,
    responseCount: nat,
    choiceCounts: seq<Entry>,
    numericValues: seq<real>,
    textSamples: seq<string>,
    booleanCounts: seq<Entry>)

  function NewState(questionLabel: string, questionType: string): AccState {
    AccState(questionLabel, questionType, 0, [], [], [], [])
  }

  /** One array entry: counted as a choice after trimming, unless blank. */
  function AddChoice(counts: seq<Entry>, entry: string): seq<Entry> {
    var normalized := Trim(entry);
    if normalized == "" then counts else Increment(counts, normalized)
  }

  /** The entries of an array answer, counted in order. */
  function CountChoices(counts: seq<Entry>, items: seq<string>): seq<Entry>
    decreases |items|
  {
    if items == [] then counts
    else AddChoice(CountChoices(counts, items[..|items| - 1]), items[|items| - 1])
  }

  function BooleanKey(b: bool): string {
    if b then "Yes" else "No"
  }

  /** The number a trimmed text answer is read as, if any: it must parse, and either print back
      as itself or belong to a numeric question type (given lower-cased). */
  function NumericCandidate(trimmed: string, questionType: string, rt: Runtime): Option<real> {
    var candidate := rt.numberOf(trimmed);
    if candidate.Some? && (trimmed == rt.numberToString(candidate.value) || IsNumericType(questionType))
    then candidate else None
  }

  /** A text answer, already trimmed: blank is ignored, a number joins the numeric values,
      otherwise it becomes a text sample while fewer than three are kept, and a choice when the
      question type is a choice type. */
  function HandledText(s: AccState, trimmed: string, rt: Runtime): AccState {
    var questionType := ToLower(s.questionType);
    if trimmed == "" then s
    else
      match NumericCandidate(trimmed, questionType, rt)
      case Some(n) => s.(numericValues := s.numericValues + [n])
      case None =>
        var sampled := if |s.textSamples| < TextSampleLimit then s.(textSamples := s.textSamples + [trimmed]) else s;
        if IsChoiceType(questionType) then sampled.(choiceCounts := Increment(sampled.choiceCounts, trimmed))
        else sampled
  }

  /** `handleAnswer`: every answer is counted, then filed by the kind of its value. */
  function Handled(s: AccState, value: AnswerValue, rt: Runtime): AccState {
    var counted := s.(responseCount := s.responseCount + 1);
    match value
    case NullValue => counted
    case Number(n) => counted.(numericValues := counted.numericValues + [n])
    case Flag(b) => counted.(booleanCounts := Increment(counted.booleanCounts, BooleanKey(b)))
    case TextList(items) => counted.(choiceCounts := CountChoices(counted.choiceCounts, items))
    case Text(t) => HandledText(counted, Trim(t), rt)
  }

  /** The accumulator after the answers `values`, in order. */
  function HandledAll(s: AccState, values: seq<AnswerValue>, rt: Runtime): AccState
    decreases |values|
  {
    if values == [] then s
    else Handled(HandledAll(s, values[..|values| - 1], rt), values[|values| - 1], rt)
  }

  /** What an accumulator always satisfies: maps with distinct keys and positive counts, choices
      and samples trimmed and non-empty, at most three samples, only Yes/No booleans, and no
      answer counted as both a boolean and a number. */
  ghost predicate Consistent(s: AccState) {
    && Valid(s.choiceCounts)
    && Valid(s.booleanCounts)
    && Total(s.booleanCounts) + |s.numericValues| <= s.responseCount
    && |s.textSamples| <= TextSampleLimit
    && (forall k :: 0 <= k < |s.textSamples| ==> s.textSamples[k] != "" && Trim(s.textSamples[k]) == s.textSamples[k])
    && (forall v :: v in Values(s.choiceCounts) ==> v != "" && Trim(v) == v)
    && (forall v :: v in Values(s.booleanCounts) ==> v == "Yes" || v == "No")
  }

  lemma {:induction false} CountChoicesConsistent(counts: seq<Entry>, items: seq<string>)
    requires Valid(counts)
    requires forall v :: v in Values(counts) ==> v != "" && Trim(v) == v
    ensures var r := CountChoices(counts, items);
      && Valid(r)
      && forall v :: v in Values(r) ==> v != "" && Trim(v) == v
    decreases |items|
  {
    if items != [] {
      var before := CountChoices(counts, items[..|items| - 1]);
      CountChoicesConsistent(counts, items[..|items| - 1]);
      var normalized := Trim(items[|items| - 1]);
      TrimIdempotent(items[|items| - 1]);
      if normalized != "" {
        IncrementValues(before, normalized);
        IncrementValid(before, normalized);
      }
    }
  }

  /** A text answer touches only the numeric values, or else only the samples and choices. */
  lemma HandledTextFrame(s: AccState, trimmed: string, rt: Runtime)
    ensures var r := HandledText(s, trimmed, rt);
      && r.questionLabel == s.questionLabel && r.questionType == s.questionType
      && r.responseCount == s.responseCount && r.booleanCounts == s.booleanCounts
      && (r.numericValues == s.numericValues
          || (|r.numericValues| == |s.numericValues| + 1 && r.textSamples == s.textSamples
              && r.choiceCounts == s.choiceCounts))
  {
  }

  /** What one answer changes: the count always, label and type never; a boolean only the
      Yes/No counts, a number only the numeric values, a list only the choices. */
  lemma HandledFrame(s: AccState, value: AnswerValue, rt: Runtime)
    ensures var r := Handled(s, value, rt);
      && r.questionLabel == s.questionLabel && r.questionType == s.questionType
      && r.responseCount == s.responseCount + 1
      && r.booleanCounts == (if value.Flag? then Increment(s.booleanCounts, BooleanKey(value.flag)) else s.booleanCounts)
      && (value.Number? ==> r.numericValues == s.numericValues + [value.number])
      && (value.NullValue? || value.Flag? || value.TextList? ==> r.numericValues == s.numericValues)
      && (!value.Text? ==> r.textSamples == s.textSamples)
      && (!value.Text? && !value.TextList? ==> r.choiceCounts == s.choiceCounts)
      && (value.TextList? ==> r.choiceCounts == CountChoices(s.choiceCounts, value.items))
  {
    if value.Text? {
      HandledTextFrame(s.(responseCount := s.responseCount + 1), Trim(value.text), rt);
    }
  }

  lemma BooleansConsistent(s: AccState, b: bool)
    requires Valid(s.booleanCounts)
    requires forall v :: v in Values(s.booleanCounts) ==> v == "Yes" || v == "No"
    ensures var r := Increment(s.booleanCounts, BooleanKey(b));
      && Valid(r) && Total(r) == Total(s.booleanCounts) + 1
      && forall v :: v in Values(r) ==> v == "Yes" || v == "No"
  {
    TotalIncrement(s.booleanCounts, BooleanKey(b));
    IncrementValues(s.booleanCounts, BooleanKey(b));
    IncrementValid(s.booleanCounts, BooleanKey(b));
  }

  /** A text answer that is neither blank nor a number keeps the invariant. */
  lemma TextSampledConsistent(s: AccState, trimmed: string, rt: Runtime)
    requires Consistent(s) && trimmed != "" && Trim(trimmed) == trimmed
    requires NumericCandidate(trimmed, ToLower(s.questionType), rt).None?
    ensures Consistent(HandledText(s.(responseCount := s.responseCount + 1), trimmed, rt))
  {
    var counted := s.(responseCount := s.responseCount + 1);
    var sampled := if |s.textSamples| < TextSampleLimit then counted.(textSamples := s.textSamples + [trimmed]) else counted;
    assert Consistent(sampled);
    if IsChoiceType(ToLower(s.questionType)) {
      IncrementValues(s.choiceCounts, trimmed);
      IncrementValid(s.choiceCounts, trimmed);
      assert Consistent(sampled.(choiceCounts := Increment(s.choiceCounts, trimmed)));
    }
  }

  lemma TextConsistent(s: AccState, t: string, rt: Runtime)
    requires Consistent(s)
    ensures Consistent(HandledText(s.(responseCount := s.responseCount + 1), Trim(t), rt))
  {
    var counted := s.(responseCount := s.responseCount + 1);
    var trimmed := Trim(t);
    TrimIdempotent(t);
    if trimmed == "" {
      assert HandledText(counted, trimmed, rt) == counted;
    } else if NumericCandidate(trimmed, ToLower(s.questionType), rt).Some? {
      var n := NumericCandidate(trimmed, ToLower(s.questionType), rt).value;
      assert HandledText(counted, trimmed, rt) == counted.(numericValues := s.numericValues + [n]);
    } else {
      TextSampledConsistent(s, trimmed, rt);
    }
  }

  /** The accumulator invariant survives every answer. */
  lemma ScalarConsistent(s: AccState, value: AnswerValue, rt: Runtime)
    requires Consistent(s) && (value.NullValue? || value.Number?)
    ensures Consistent(Handled(s, value, rt))
  {
    var counted := s.(responseCount := s.responseCount + 1);
    if value.NullValue? {
      assert Handled(s, value, rt) == counted;
    } else {
      assert Handled(s, value, rt) == counted.(numericValues := s.numericValues + [value.number]);
    }
  }

  lemma FlagConsistent(s: AccState, b: bool, rt: Runtime)
    requires Consistent(s)
    ensures Consistent(Handled(s, Flag(b), rt))
  {
    BooleansConsistent(s, b);
    assert Handled(s, Flag(b), rt)
      == s.(responseCount := s.responseCount + 1, booleanCounts := Increment(s.booleanCounts, BooleanKey(b)));
  }

  lemma ListConsistent(s: AccState, items: seq<string>, rt: Runtime)
    requires Consistent(s)
    ensures Consistent(Handled(s, TextList(items), rt))
  {
    CountChoicesConsistent(s.choiceCounts, items);
    assert Handled(s, TextList(items), rt)
      == s.(responseCount := s.responseCount + 1, choiceCounts := CountChoices(s.choiceCounts, items));
  }

  /** The accumulator invariant survives every answer. */
  lemma HandledConsistent(s: AccState, value: AnswerValue, rt: Runtime)
    requires Consistent(s)
    ensures Consistent(Handled(s, value, rt))
  {
    match value
    case NullValue => ScalarConsistent(s, value, rt);
    case Number(_) => ScalarConsistent(s, value, rt);
    case Flag(b) => FlagConsistent(s, b, rt);
    case TextList(items) => ListConsistent(s, items, rt);
    case Text(t) =>
      TextConsistent(s, t, rt);
      assert Handled(s, value, rt) == HandledText(s.(responseCount := s.responseCount + 1), Trim(t), rt);
  }

  lemma {:induction false} HandledAllConsistent(s: AccState, values: seq<AnswerValue>, rt: Runtime)
    requires Consistent(s)
    ensures Consistent(HandledAll(s, values, rt))
    decreases |values|
  {
    if values != [] {
      HandledAllConsistent(s, values[..|values| - 1], rt);
      HandledConsistent(HandledAll(s, values[..|values| - 1], rt), values[|values| - 1], rt);
    }
  }

  lemma NewStateConsistent(questionLabel: string, questionType: string)
    ensures Consistent(NewState(questionLabel, questionType))
  {
  }

  /** Every answer is counted, null and blank ones included, and label and type never change. */
  lemma {:induction false} HandledAllCounts(s: AccState, values: seq<AnswerValue>, rt: Runtime)
    ensures var r := HandledAll(s, values, rt);
      && r.responseCount == s.responseCount + |values|
      && r.questionLabel == s.questionLabel
      && r.questionType == s.questionType
    decreases |values|
  {
    if values != [] {
      HandledAllCounts(s, values[..|values| - 1], rt);
    }
  }

  /** The number of `true` (for "Yes") or `false` (for "No") answers among `values`. */
  function FlagCount(values: seq<AnswerValue>, b: bool): nat
    decreases |values|
  {
    if values == [] then 0
    else FlagCount(values[..|values| - 1], b) + (if values[|values| - 1] == Flag(b) then 1 else 0)
  }

  /** A `true` answer increments only "Yes" and a `false` one only "No". */
  lemma {:induction false} HandledAllBooleans(s: AccState, values: seq<AnswerValue>, rt: Runtime)
    ensures var r := HandledAll(s, values, rt);
      && Get(r.booleanCounts, "Yes") == Get(s.booleanCounts, "Yes") + FlagCount(values, true)
      && Get(r.booleanCounts, "No") == Get(s.booleanCounts, "No") + FlagCount(values, false)
      && forall w :: w != "Yes" && w != "No" ==> Get(r.booleanCounts, w) == Get(s.booleanCounts, w)
    decreases |values|
  {
    if values != [] {
      var before := HandledAll(s, values[..|values| - 1], rt);
      var last := values[|values| - 1];
      HandledAllBooleans(s, values[..|values| - 1], rt);
      HandledFrame(before, last, rt);
      if last.Flag? {
        forall w { IncrementGet(before.booleanCounts, BooleanKey(last.flag), w); }
      }
    }
  }

  /** The answers that would become text samples: trimmed, non-empty and not read as numbers. */
  function TextCandidates(questionType: string, values: seq<AnswerValue>, rt: Runtime): seq<string>
    decreases |values|
  {
    if values == [] then []
    else
      var earlier := TextCandidates(questionType, values[..|values| - 1], rt);
      match values[|values| - 1]
      case Text(t) =>
        if Trim(t) != "" && NumericCandidate(Trim(t), ToLower(questionType), rt).None? then earlier + [Trim(t)]
        else earlier
      case _ => earlier
  }

  lemma TakeSnoc(a: seq<string>, x: string, n: nat)
    ensures Take(a + [x], n) == if |a| < n then a + [x] else Take(a, n)
  {
    if |a| >= n {
      assert (a + [x])[..n] == a[..n];
    }
  }

  /** Text samples are the first three candidates, in answer order. */
  lemma {:induction false} HandledAllSamples(s: AccState, values: seq<AnswerValue>, rt: Runtime)
    requires |s.textSamples| <= TextSampleLimit
    ensures HandledAll(s, values, rt).textSamples
            == Take(s.textSamples + TextCandidates(s.questionType, values, rt), TextSampleLimit)
    decreases |values|
  {
    if values == [] {
      assert s.textSamples + [] == s.textSamples;
    } else {
      var init := values[..|values| - 1];
      var before := HandledAll(s, init, rt);
      HandledAllSamples(s, init, rt);
      HandledAllCounts(s, init, rt);
      var earlier := s.textSamples + TextCandidates(s.questionType, init, rt);
      match values[|values| - 1]
      case Text(t) =>
        if Trim(t) != "" && NumericCandidate(Trim(t), ToLower(s.questionType), rt).None? {
          assert s.textSamples + TextCandidates(s.questionType, values, rt) == earlier + [Trim(t)];
          TakeSnoc(earlier, Trim(t), TextSampleLimit);
        }
      case _ =>
    }
  }

  /** The number of entries of `items` that trim to `w`. */
  function Occurrences(items: seq<string>, w: string): nat
    decreases |items|
  {
    if items == [] then 0
    else Occurrences(items[..|items| - 1], w) + (if Trim(items[|items| - 1]) == w then 1 else 0)
  }

  /** Array entries are counted as choices after trimming; blank entries are skipped. */
  lemma {:induction false} CountChoicesGet(counts: seq<Entry>, items: seq<string>, w: string)
    ensures Get(CountChoices(counts, items), w) == Get(counts, w) + (if w == "" then 0 else Occurrences(items, w))
    decreases |items|
  {
    if items != [] {
      CountChoicesGet(counts, items[..|items| - 1], w);
      var normalized := Trim(items[|items| - 1]);
      if normalized != "" {
        IncrementGet(CountChoices(counts, items[..|items| - 1]), normalized, w);
      }
    }
  }

  /** A text answer is counted as a choice only when it is non-empty, not read as a number and
      the question type is a choice type. */
  lemma TextChoice(s: AccState, t: string, w: string, rt: Runtime)
    ensures Get(Handled(s, Text(t), rt).choiceCounts, w)
            == Get(s.choiceCounts, w)
               + (if w == Trim(t) && w != "" && NumericCandidate(w, ToLower(s.questionType), rt).None?
                     && IsChoiceType(ToLower(s.questionType)) then 1 else 0)
  {
    var counted := s.(responseCount := s.responseCount + 1);
    var trimmed := Trim(t);
    var questionType := ToLower(s.questionType);
    assert Handled(s, Text(t), rt) == HandledText(counted, trimmed, rt);
    if trimmed != "" && NumericCandidate(trimmed, questionType, rt).None? && IsChoiceType(questionType) {
      IncrementGet(s.choiceCounts, trimmed, w);
    }
  }

  // ---------------------------------------------------------------- the accumulator object

  /** A question's accumulator, updated in place by each answer under its key. */
  class QuestionAccumulator {
    const questionLabel: string
    const questionType: string
    var responseCount: nat
    var choiceCounts: seq<Entry>
    var numericValues: seq<real>
    var textSamples: seq<string>
    var booleanCounts: seq<Entry>

    function State(): AccState
      reads this
    {
      AccState(questionLabel, questionType, responseCount, choiceCounts, numericValues, textSamples, booleanCounts)
    }

    /** The accumulator a key's first answer creates, with that answer's label and type. */
    constructor(questionLabel: string, questionType: string)
      ensures State() == NewState(questionLabel, questionType)
    {
      this.questionLabel := questionLabel;
      this.questionType := questionType;
      responseCount := 0;
      choiceCounts := [];
      numericValues := [];
      textSamples := [];
      booleanCounts := [];
    }

    /** `handleAnswer` */
    method HandleAnswer(value: AnswerValue, rt: Runtime)
      modifies this
      ensures State() == Handled(old(State()), value, rt)
    {
      responseCount := responseCount + 1;
      match value {
        case NullValue =>
        case Number(n) =>
          numericValues := numericValues + [n];
        case Flag(b) =>
          var key := if b then "Yes" else "No";
          booleanCounts := Increment(booleanCounts, key);
        case TextList(items) =>
          var counts := choiceCounts;
          var i := 0;
          while i < |items|
            invariant 0 <= i <= |items|
            invariant counts == CountChoices(choiceCounts, items[..i])
          {
            assert items[..i + 1][..i] == items[..i];
            var normalized := Trim(items[i]);
            if normalized != "" {
              counts := Increment(counts, normalized);
            }
            i := i + 1;
          }
          assert items[..|items|] == items;
          choiceCounts := counts;
        case Text(t) =>
          ghost var counted := State();
          var trimmed := Trim(t);
          var lowerType := ToLower(questionType);
          if trimmed != "" {
            var numericCandidate := NumericCandidate(trimmed, lowerType, rt);
            if numericCandidate.Some? {
              numericValues := numericValues + [numericCandidate.value];
            } else {
              if |textSamples| < TextSampleLimit {
                textSamples := textSamples + [trimmed];
              }
              if IsChoiceType(lowerType) {
                choiceCounts := Increment(choiceCounts, trimmed);
              }
            }
          }
          assert State() == HandledText(counted, trimmed, rt);
          assert State() == Handled(old(State()), value, rt);
      }
    }
  }
}
