/** `aggregateTallyResponses` (apps/web/src/lib/tally-analytics.ts): every answer outside the
    excluded keys is handed to its key's accumulator, created from the first answer under that
    key; the submission totals are counted beside, and the accumulators are finalised. */
module TallyAggregate {
  import opened Wrappers
  import opened JsRuntime
  import opened Sorting
  import opened OrderedCounts
  import opened TallyClient
  import opened TallyAnalytics
  import opened TallyInsights

  // ---------------------------------------------------------------- the question map

  /** The question map as values: its keys in insertion order and each key's accumulator. */
  datatype Aggregate = Aggregate(keys: seq<string>, states: map<string, AccState>)

  const NoQuestions: Aggregate := Aggregate([], map[])

  /** The loop body for one answer: excluded keys are skipped, a new key gets an accumulator
      with this answer's label and type, and the answer is handled by its key's accumulator. */
  function Absorb(g: Aggregate, a: NormalizedAnswer, rt: Runtime): Aggregate {
    if a.key in ExcludedQuestionKeys then g
    else
      var existing := if a.key in g.states then g.states[a.key] else NewState(a.questionLabel, a.questionType);
      var keys := if a.key in g.states then g.keys else g.keys + [a.key];
      Aggregate(keys, g.states[a.key := Handled(existing, a.value, rt)])
  }

  function AbsorbAll(g: Aggregate, answers: seq<NormalizedAnswer>, rt: Runtime): Aggregate
    decreases |answers|
  {
    if answers == [] then g
    else Absorb(AbsorbAll(g, answers[..|answers| - 1], rt), answers[|answers| - 1], rt)
  }

  /** The answers of all responses, response by response. */
  function AnswersOf(responses: seq<NormalizedResponse>): seq<NormalizedAnswer>
    decreases |responses|
  {
    if responses == [] then []
    else AnswersOf(responses[..|responses| - 1]) + responses[|responses| - 1].answers
  }

  /** Handing over two runs of answers is handing over their concatenation. */
  lemma {:induction false} AbsorbAllAppend(g: Aggregate, xs: seq<NormalizedAnswer>, ys: seq<NormalizedAnswer>, rt: Runtime)
    ensures AbsorbAll(g, xs + ys, rt) == AbsorbAll(AbsorbAll(g, xs, rt), ys, rt)
    decreases |ys|
  {
    if ys == [] {
      assert xs + ys == xs;
    } else {
      var init := ys[..|ys| - 1];
      AbsorbAllAppend(g, xs, init, rt);
      assert (xs + ys)[..|xs + ys| - 1] == xs + init;
    }
  }

  /** Keys listed once each, and exactly the keys that have an accumulator. */
  ghost predicate WellKeyed(g: Aggregate) {
    && (forall i, j :: 0 <= i < j < |g.keys| ==> g.keys[i] != g.keys[j])
    && (forall k :: k in g.states <==> k in g.keys)
  }

  ghost predicate HasKey(answers: seq<NormalizedAnswer>, k: string) {
    exists i :: 0 <= i < |answers| && answers[i].key == k
  }

  /** The question map lists each key once, keeps the order in which keys first appear, and
      holds exactly the keys of non-excluded answers. */
  lemma {:induction false} AbsorbAllKeys(g: Aggregate, answers: seq<NormalizedAnswer>, rt: Runtime)
    requires WellKeyed(g)
    ensures var r := AbsorbAll(g, answers, rt);
      && WellKeyed(r)
      && g.keys <= r.keys
      && forall k :: k in r.states <==> k in g.states || (k !in ExcludedQuestionKeys && HasKey(answers, k))
    decreases |answers|
  {
    if answers != [] {
      var init := answers[..|answers| - 1];
      var a := answers[|answers| - 1];
      AbsorbAllKeys(g, init, rt);
      forall k
        ensures HasKey(answers, k) <==> HasKey(init, k) || a.key == k
      {
        if HasKey(answers, k) {
          var i :| 0 <= i < |answers| && answers[i].key == k;
          if i < |init| {
            assert init[i].key == k;
          }
        }
        if HasKey(init, k) {
          var i :| 0 <= i < |init| && init[i].key == k;
          assert answers[i].key == k;
        }
      }
    }
  }

  /** The values of the answers under `k`, in order. */
  function ValuesWithKey(answers: seq<NormalizedAnswer>, k: string): seq<AnswerValue>
    decreases |answers|
  {
    if answers == [] then []
    else
      var a := answers[|answers| - 1];
      ValuesWithKey(answers[..|answers| - 1], k) + (if a.key == k then [a.value] else [])
  }

  /** The first answer under `k`, if any. */
  function FirstWithKey(answers: seq<NormalizedAnswer>, k: string): Option<NormalizedAnswer>
    decreases |answers|
  {
    if answers == [] then None
    else
      var earlier := FirstWithKey(answers[..|answers| - 1], k);
      if earlier.None? && answers[|answers| - 1].key == k then Some(answers[|answers| - 1]) else earlier
  }

  /** `FirstWithKey` finds an answer exactly when one has the key, and no earlier one has it. */
  lemma {:induction false} FirstWithKeySpec(answers: seq<NormalizedAnswer>, k: string)
    ensures FirstWithKey(answers, k).Some? <==> HasKey(answers, k)
    ensures FirstWithKey(answers, k).Some? ==>
      exists i :: 0 <= i < |answers| && answers[i] == FirstWithKey(answers, k).value
        && answers[i].key == k && forall j :: 0 <= j < i ==> answers[j].key != k
    decreases |answers|
  {
    if answers != [] {
      var init := answers[..|answers| - 1];
      FirstWithKeySpec(init, k);
      if HasKey(answers, k) && !HasKey(init, k) {
        var i :| 0 <= i < |answers| && answers[i].key == k;
        assert i == |init|;
      }
      if HasKey(init, k) {
        var i :| 0 <= i < |init| && init[i].key == k;
        assert answers[i].key == k;
        var m :| 0 <= m < |init| && init[m] == FirstWithKey(init, k).value
          && init[m].key == k && forall j :: 0 <= j < m ==> init[j].key != k;
        assert answers[m] == init[m];
      } else if answers[|init|].key == k {
        assert forall j :: 0 <= j < |init| ==> answers[j].key != k by {
          forall j | 0 <= j < |init| ensures answers[j].key != k {
            assert init[j] == answers[j];
          }
        }
      }
    }
  }

  /** What one answer does to the accumulator of key `k`. */
  lemma AbsorbStateAt(g: Aggregate, a: NormalizedAnswer, k: string, rt: Runtime)
    ensures var r := Absorb(g, a, rt);
      && (k in r.states <==> k in g.states || (a.key == k && k !in ExcludedQuestionKeys))
      && (k in r.states && a.key != k ==> r.states[k] == g.states[k])
      && (a.key == k && k !in ExcludedQuestionKeys ==> r.states[k] == Handled(
            if k in g.states then g.states[k] else NewState(a.questionLabel, a.questionType), a.value, rt))
  {
  }

  /** A key's accumulator is a fresh accumulator with the label and type of the key's first
      answer, after all the values under that key in order. */
  lemma {:induction false} AbsorbAllState(answers: seq<NormalizedAnswer>, k: string, rt: Runtime)
    requires k in AbsorbAll(NoQuestions, answers, rt).states
    ensures FirstWithKey(answers, k).Some?
    ensures var first := FirstWithKey(answers, k).value;
      AbsorbAll(NoQuestions, answers, rt).states[k]
      == HandledAll(NewState(first.questionLabel, first.questionType), ValuesWithKey(answers, k), rt)
    decreases |answers|
  {
    var init := answers[..|answers| - 1];
    var a := answers[|answers| - 1];
    var before := AbsorbAll(NoQuestions, init, rt);
    assert AbsorbAll(NoQuestions, answers, rt) == Absorb(before, a, rt);
    AbsorbStateAt(before, a, k, rt);
    AbsorbAllKeys(NoQuestions, init, rt);
    if k in before.states {
      AbsorbAllState(init, k, rt);
      StateAfterLaterAnswer(init, a, k, HandledAll(NewState(FirstWithKey(init, k).value.questionLabel,
        FirstWithKey(init, k).value.questionType), ValuesWithKey(init, k), rt), rt);
    } else {
      assert answers == init + [a];
      StateAfterFirstAnswer(init, a, k, rt);
    }
  }

  /** The first answer under `k` creates its accumulator and is its only value so far. */
  lemma StateAfterFirstAnswer(init: seq<NormalizedAnswer>, a: NormalizedAnswer, k: string, rt: Runtime)
    requires !HasKey(init, k) && a.key == k
    ensures FirstWithKey(init + [a], k) == Some(a)
    ensures Handled(NewState(a.questionLabel, a.questionType), a.value, rt)
            == HandledAll(NewState(a.questionLabel, a.questionType), ValuesWithKey(init + [a], k), rt)
  {
    var answers := init + [a];
    assert answers[..|answers| - 1] == init;
    FirstWithKeySpec(init, k);
    NoValuesWithoutKey(init, k);
    assert ValuesWithKey(answers, k) == [a.value];
    assert ValuesWithKey(answers, k)[..0] == [];
  }

  /** An answer after the first under `k` extends the values and keeps the first answer. */
  lemma StateAfterLaterAnswer(init: seq<NormalizedAnswer>, a: NormalizedAnswer, k: string, s: AccState, rt: Runtime)
    requires FirstWithKey(init, k).Some?
    requires var first := FirstWithKey(init, k).value;
      s == HandledAll(NewState(first.questionLabel, first.questionType), ValuesWithKey(init, k), rt)
    ensures FirstWithKey(init + [a], k) == FirstWithKey(init, k)
    ensures var first := FirstWithKey(init, k).value;
      (if a.key == k then Handled(s, a.value, rt) else s)
      == HandledAll(NewState(first.questionLabel, first.questionType), ValuesWithKey(init + [a], k), rt)
  {
    var answers := init + [a];
    assert answers[..|answers| - 1] == init;
    var values := ValuesWithKey(init, k);
    if a.key == k {
      assert ValuesWithKey(answers, k) == values + [a.value];
      assert (values + [a.value])[..|values|] == values;
    } else {
      assert ValuesWithKey(answers, k) == values;
    }
  }

  lemma {:induction false} NoValuesWithoutKey(answers: seq<NormalizedAnswer>, k: string)
    requires !HasKey(answers, k)
    ensures ValuesWithKey(answers, k) == []
    decreases |answers|
  {
    if answers != [] {
      var init := answers[..|answers| - 1];
      forall i | 0 <= i < |init| ensures init[i].key != k {
        assert init[i] == answers[i];
      }
      NoValuesWithoutKey(init, k);
    }
  }

  /** Each question counts every answer under its key, null and blank ones included; label and
      type are those of its first answer; and its accumulator keeps the invariant. */
  lemma QuestionStatistics(answers: seq<NormalizedAnswer>, k: string, rt: Runtime)
    requires k in AbsorbAll(NoQuestions, answers, rt).states
    ensures var s := AbsorbAll(NoQuestions, answers, rt).states[k];
      && k !in ExcludedQuestionKeys
      && FirstWithKey(answers, k).Some?
      && s.questionLabel == FirstWithKey(answers, k).value.questionLabel
      && s.questionType == FirstWithKey(answers, k).value.questionType
      && s.responseCount == |ValuesWithKey(answers, k)|
      && Consistent(s)
  {
    AbsorbAllKeys(NoQuestions, answers, rt);
    AbsorbAllState(answers, k, rt);
    var first := FirstWithKey(answers, k).value;
    var start := NewState(first.questionLabel, first.questionType);
    HandledAllCounts(start, ValuesWithKey(answers, k), rt);
    NewStateConsistent(first.questionLabel, first.questionType);
    HandledAllConsistent(start, ValuesWithKey(answers, k), rt);
  }

  // ---------------------------------------------------------------- totals

  /** The number of responses marked completed. */
  function CompletedCount(responses: seq<NormalizedResponse>): (n: nat)
    ensures n <= |responses|
    decreases |responses|
  {
    if responses == [] then 0
    else
      CompletedCount(responses[..|responses| - 1])
        + (if responses[|responses| - 1].completed == Some(true) then 1 else 0)
  }

  /** A `submittedAt` that JavaScript treats as true: present and non-empty. */
  predicate Truthy(at: Option<string>) {
    at.Some? && at.value != ""
  }

  /** `new Date(a) > new Date(b)`: false when either date does not parse. */
  predicate Later(a: string, b: string, rt: Runtime) {
    && rt.parseDate(a).Some? && rt.parseDate(b).Some?
    && rt.parseDate(a).value > rt.parseDate(b).value
  }

  /** `lastSubmittedAt`: the first truthy `submittedAt` replaced by every later-dated one. */
  function LatestSubmitted(responses: seq<NormalizedResponse>, rt: Runtime): (r: Option<string>)
    ensures r.Some? ==> r.value != ""
    decreases |responses|
  {
    if responses == [] then None
    else
      var latest := LatestSubmitted(responses[..|responses| - 1], rt);
      var at := responses[|responses| - 1].submittedAt;
      if Truthy(at) && (latest.None? || Later(at.value, latest.value, rt)) then at else latest
  }

  /** Absent exactly when no response has a `submittedAt`; otherwise one of them. */
  lemma {:induction false} LatestSubmittedIsOne(responses: seq<NormalizedResponse>, rt: Runtime)
    ensures var r := LatestSubmitted(responses, rt);
      && (r.None? <==> forall i :: 0 <= i < |responses| ==> !Truthy(responses[i].submittedAt))
      && (r.Some? ==> exists i :: 0 <= i < |responses| && responses[i].submittedAt == r)
    decreases |responses|
  {
    if responses != [] {
      var init := responses[..|responses| - 1];
      LatestSubmittedIsOne(init, rt);
      if LatestSubmitted(init, rt).Some? {
        var i :| 0 <= i < |init| && init[i].submittedAt == LatestSubmitted(init, rt);
        assert responses[i] == init[i];
      }
      if exists i :: 0 <= i < |init| && Truthy(init[i].submittedAt) {
        var i :| 0 <= i < |init| && Truthy(init[i].submittedAt);
        assert responses[i] == init[i];
      }
    }
  }

  /** When every truthy `submittedAt` parses, the result carries the latest date. */
  lemma {:induction false} LatestSubmittedIsLatest(responses: seq<NormalizedResponse>, rt: Runtime)
    requires forall i :: 0 <= i < |responses| && Truthy(responses[i].submittedAt)
               ==> rt.parseDate(responses[i].submittedAt.value).Some?
    ensures var r := LatestSubmitted(responses, rt);
      r.Some? ==> (
        && rt.parseDate(r.value).Some?
        && forall i :: 0 <= i < |responses| && Truthy(responses[i].submittedAt)
             ==> rt.parseDate(responses[i].submittedAt.value).value <= rt.parseDate(r.value).value)
    decreases |responses|
  {
    if responses != [] {
      var init := responses[..|responses| - 1];
      forall i | 0 <= i < |init| && Truthy(init[i].submittedAt)
        ensures rt.parseDate(init[i].submittedAt.value).Some?
      {
        assert responses[i] == init[i];
      }
      LatestSubmittedIsLatest(init, rt);
      LatestSubmittedIsOne(init, rt);
      var r := LatestSubmitted(responses, rt);
      forall i | 0 <= i < |responses| && Truthy(responses[i].submittedAt)
        ensures rt.parseDate(responses[i].submittedAt.value).value <= rt.parseDate(r.value).value
      {
        if i < |init| {
          assert responses[i] == init[i];
        }
      }
    }
  }

  /** A first truthy `submittedAt` that does not parse is never replaced: every comparison
      with it is false. */
  lemma UnparsedDateSticks(first: NormalizedResponse, rest: seq<NormalizedResponse>, rt: Runtime)
    requires Truthy(first.submittedAt) && rt.parseDate(first.submittedAt.value).None?
    ensures LatestSubmitted([first] + rest, rt) == first.submittedAt
    decreases |rest|
  {
    var all := [first] + rest;
    if rest != [] {
      assert all[..|all| - 1] == [first] + rest[..|rest| - 1];
      UnparsedDateSticks(first, rest[..|rest| - 1], rt);
    } else {
      assert all[..0] == [];
    }
  }

  // ---------------------------------------------------------------- the aggregate

  datatype Totals = Totals(
    submissions: nat, completedSubmissions: nat, lastSubmittedAt: Option<string>, questionCount: nat)

  datatype AggregatedTallyData = AggregatedTallyData(totals: Totals, questions: seq<QuestionInsight>)

  /** What `aggregateTallyResponses` returns. */
  function Aggregated(responses: seq<NormalizedResponse>, rt: Runtime): AggregatedTallyData {
    var g := AbsorbAll(NoQuestions, AnswersOf(responses), rt);
    AbsorbAllKeys(NoQuestions, AnswersOf(responses), rt);
    AggregatedTallyData(
      Totals(|responses|, CompletedCount(responses), LatestSubmitted(responses, rt), |g.states|),
      BuildInsights(g.keys, g.states, rt))
  }

  /** The totals count the responses, and there is one question per distinct non-excluded key:
      each finalised from that key's accumulator. */
  lemma AggregatedQuestions(responses: seq<NormalizedResponse>, rt: Runtime)
    ensures var r := Aggregated(responses, rt);
      var answers := AnswersOf(responses);
      var g := AbsorbAll(NoQuestions, answers, rt);
      && r.totals.submissions == |responses|
      && r.totals.completedSubmissions <= r.totals.submissions
      && r.totals.questionCount == |r.questions| == |g.keys|
      && (forall k :: k in g.states <==> k !in ExcludedQuestionKeys && HasKey(answers, k))
      && (forall q :: q in r.questions <==> q.key in g.states && q == Finalized(q.key, g.states[q.key]))
  {
    var answers := AnswersOf(responses);
    var g := AbsorbAll(NoQuestions, answers, rt);
    AbsorbAllKeys(NoQuestions, answers, rt);
    DistinctKeysCount(g);
    BuildInsightsMembers(g.keys, g.states, rt);
    forall q ensures q in Aggregated(responses, rt).questions
      <==> q.key in g.states && q == Finalized(q.key, g.states[q.key])
    {
      if q.key in g.states && q == Finalized(q.key, g.states[q.key]) {
        assert q.key in g.keys;
      }
    }
  }

  /** A map whose keys are listed once each has as many keys as the list. */
  lemma DistinctKeysCount(g: Aggregate)
    requires WellKeyed(g)
    ensures |g.states| == |g.keys|
  {
    var ks := set k | k in g.keys;
    assert g.states.Keys == ks;
    DistinctCard(g.keys);
  }

  // ---------------------------------------------------------------- the objects

  /** The fields of the accumulator objects, key by key. */
  ghost function StatesOf(m: map<string, QuestionAccumulator>): map<string, AccState>
    reads m.Values
  {
    map k | k in m :: m[k].State()
  }

  /** `buildQuestionInsights`: an insight is pushed for each entry of the map in insertion
      order (`keys`), and the list is then sorted by label. */
  method BuildQuestionInsights(keys: seq<string>, m: map<string, QuestionAccumulator>, rt: Runtime)
    returns (insights: seq<QuestionInsight>)
    requires forall k :: k in keys ==> k in m
    ensures insights == BuildInsights(keys, StatesOf(m), rt)
  {
    ghost var states := StatesOf(m);
    ghost var pushed := FinalizedAll(keys, states);
    insights := [];
    var i := 0;
    while i < |keys|
      invariant 0 <= i <= |keys|
      invariant insights == pushed[..i]
    {
      var key := keys[i];
      var accumulator := m[key];
      var insight := Finalized(key, accumulator.State());
      assert states[key] == accumulator.State();
      assert insight == pushed[i];
      insights := insights + [insight];
      i := i + 1;
    }
    assert pushed[..|keys|] == pushed;
    insights := SortBy(insights, LabelOrder(rt));
  }

  /** Different keys own different accumulator objects. */
  predicate Unaliased(m: map<string, QuestionAccumulator>) {
    forall k, k' :: k in m && k' in m && k != k' ==> m[k] != m[k']
  }

  /** The body of the inner loop of `aggregateTallyResponses` for one answer: look up or create
      the key's accumulator, hand it the answer and store it under the key. */
  method AbsorbAnswer(keys: seq<string>, questionMap: map<string, QuestionAccumulator>, answer: NormalizedAnswer, rt: Runtime)
    returns (keys': seq<string>, questionMap': map<string, QuestionAccumulator>)
    requires Unaliased(questionMap)
    modifies questionMap.Values
    ensures Unaliased(questionMap')
    ensures forall k :: k in questionMap' ==> questionMap'[k] in questionMap.Values || fresh(questionMap'[k])
    ensures Aggregate(keys', StatesOf(questionMap')) == Absorb(Aggregate(keys, old(StatesOf(questionMap))), answer, rt)
  {
    keys', questionMap' := keys, questionMap;
    if answer.key !in ExcludedQuestionKeys {
      var accumulator: QuestionAccumulator;
      if answer.key in questionMap {
        accumulator := questionMap[answer.key];
      } else {
        accumulator := new QuestionAccumulator(answer.questionLabel, answer.questionType);
        keys' := keys + [answer.key];
      }
      ghost var previous := accumulator.State();
      accumulator.HandleAnswer(answer.value, rt);
      questionMap' := questionMap[answer.key := accumulator];
      assert StatesOf(questionMap') == old(StatesOf(questionMap))[answer.key := Handled(previous, answer.value, rt)];
    }
  }

  /** The inner loop of `aggregateTallyResponses`: the answers of one response, in order. */
  method AbsorbAnswers(keys: seq<string>, questionMap: map<string, QuestionAccumulator>, answers: seq<NormalizedAnswer>, rt: Runtime)
    returns (keys': seq<string>, questionMap': map<string, QuestionAccumulator>)
    requires Unaliased(questionMap)
    modifies questionMap.Values
    ensures Unaliased(questionMap')
    ensures forall k :: k in questionMap' ==> questionMap'[k] in questionMap.Values || fresh(questionMap'[k])
    ensures Aggregate(keys', StatesOf(questionMap')) == AbsorbAll(Aggregate(keys, old(StatesOf(questionMap))), answers, rt)
  {
    ghost var start := Aggregate(keys, StatesOf(questionMap));
    keys', questionMap' := keys, questionMap;
    var j := 0;
    while j < |answers|
      invariant 0 <= j <= |answers|
      invariant Unaliased(questionMap')
      invariant forall k :: k in questionMap' ==> questionMap'[k] in questionMap.Values || fresh(questionMap'[k])
      invariant Aggregate(keys', StatesOf(questionMap')) == AbsorbAll(start, answers[..j], rt)
    {
      assert answers[..j + 1][..j] == answers[..j];
      keys', questionMap' := AbsorbAnswer(keys', questionMap', answers[j], rt);
      j := j + 1;
    }
    assert answers[..|answers|] == answers;
  }

  /** The loop of `aggregateTallyResponses`: counts completed responses, keeps the latest
      submission time and feeds every answer to its question's accumulator. The question map
      is a JavaScript `Map`, held here as its keys in insertion order beside a map from keys
      to accumulator objects. */
  method AccumulateResponses(responses: seq<NormalizedResponse>, rt: Runtime)
    returns (keys: seq<string>, questionMap: map<string, QuestionAccumulator>,
             completedSubmissions: int, lastSubmittedAt: Option<string>)
    ensures completedSubmissions == CompletedCount(responses)
    ensures lastSubmittedAt == LatestSubmitted(responses, rt)
    ensures forall k :: k in questionMap ==> fresh(questionMap[k])
    ensures Aggregate(keys, StatesOf(questionMap)) == AbsorbAll(NoQuestions, AnswersOf(responses), rt)
  {
    keys := [];
    questionMap := map[];
    lastSubmittedAt := None;
    completedSubmissions := 0;
    var i := 0;
    while i < |responses|
      invariant 0 <= i <= |responses|
      invariant completedSubmissions == CompletedCount(responses[..i])
      invariant lastSubmittedAt == LatestSubmitted(responses[..i], rt)
      invariant forall k :: k in questionMap ==> fresh(questionMap[k])
      invariant Unaliased(questionMap)
      invariant Aggregate(keys, StatesOf(questionMap)) == AbsorbAll(NoQuestions, AnswersOf(responses[..i]), rt)
    {
      var response := responses[i];
      assert responses[..i + 1][..i] == responses[..i];
      if response.completed == Some(true) {
        completedSubmissions := completedSubmissions + 1;
      }
      if Truthy(response.submittedAt) {
        if lastSubmittedAt.None? || Later(response.submittedAt.value, lastSubmittedAt.value, rt) {
          lastSubmittedAt := response.submittedAt;
        }
      }
      AbsorbAllAppend(NoQuestions, AnswersOf(responses[..i]), response.answers, rt);
      keys, questionMap := AbsorbAnswers(keys, questionMap, response.answers, rt);
      i := i + 1;
    }
    assert responses[..|responses|] == responses;
  }

  /** `aggregateTallyResponses(responses)` */
  method AggregateTallyResponses(responses: seq<NormalizedResponse>, rt: Runtime)
    returns (r: AggregatedTallyData)
    ensures r == Aggregated(responses, rt)
  {
    var keys, questionMap, completedSubmissions, lastSubmittedAt := AccumulateResponses(responses, rt);
    AbsorbAllKeys(NoQuestions, AnswersOf(responses), rt);
    var questions := BuildQuestionInsights(keys, questionMap, rt);
    assert StatesOf(questionMap).Keys == questionMap.Keys;
    r := AggregatedTallyData(
      Totals(|responses|, completedSubmissions, lastSubmittedAt, |questionMap|), questions);
  }
}
