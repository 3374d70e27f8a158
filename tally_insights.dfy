/** Finalisation of question accumulators into insights (`buildQuestionInsights` in
    apps/web/src/lib/tally-analytics.ts): choice and boolean counts become statistics ranked by
    count, the top five choices are kept, numeric values are summarised, empty parts are left
    out, and the insights are ordered by label. */
module TallyInsights {
  import opened Wrappers
  import opened JsRuntime
  import opened Sorting
  import opened OrderedCounts
  import opened TallyAnalytics

  datatype ChoiceStatistic = ChoiceStatistic(value: string, count: nat, percentage: real)

  datatype NumericSummary = NumericSummary(average: real, min: real, max: real)

  /** A part that is `undefined` in the source is `None`. */
  datatype QuestionInsight = QuestionInsight(
    key: string,
    questionLabel: string,
    questionType: string,
    responseCount: nat,
    topChoices: Option<seq<ChoiceStatistic>>,
    numericSummary: Option<NumericSummary>,
    booleanBreakdown: Option<seq<ChoiceStatistic>>,
    textSamples: Option<seq<string>>)

  // ---------------------------------------------------------------- statistics

  /** A counter entry with its share of the question's answers. */
  function StatisticOf(e: Entry, total: nat): ChoiceStatistic {
    ChoiceStatistic(e.value, e.count, NormalizePercentage(e.count as real, total as real))
  }

  /** `Array.from(counts.entries()).map(...)`: one statistic per entry, in insertion order. */
  function Statistics(counts: seq<Entry>, total: nat): (r: seq<ChoiceStatistic>)
    ensures |r| == |counts|
  {
    seq(|counts|, i requires 0 <= i < |counts| => StatisticOf(counts[i], total))
  }

  /** The comparator `(a, b) => b.count - a.count`: `a` may stay before `b` unless `b` has the
      larger count. */
  predicate ByCount(a: ChoiceStatistic, b: ChoiceStatistic) {
    a.count >= b.count
  }

  lemma ByCountTotal()
    ensures TotalPreorder(ByCount)
  {
  }

  /** `x.length > 0 ? x : undefined` */
  function NonEmpty<T>(s: seq<T>): (r: Option<seq<T>>)
    ensures r.None? <==> s == []
    ensures r.Some? ==> r.value == s
  {
    if s == [] then None else Some(s)
  }

  // ---------------------------------------------------------------- numeric summary

  /** `values.reduce((total, current) => total + current, 0)` */
  function Sum(values: seq<real>): real
    decreases |values|
  {
    if values == [] then 0.0 else Sum(values[..|values| - 1]) + values[|values| - 1]
  }

  /** `Math.min(...values)` */
  function Min(values: seq<real>): real
    requires values != []
    decreases |values|
  {
    if |values| == 1 then values[0]
    else
      var m := Min(values[..|values| - 1]);
      if values[|values| - 1] < m then values[|values| - 1] else m
  }

  /** `Math.max(...values)` */
  function Max(values: seq<real>): real
    requires values != []
    decreases |values|
  {
    if |values| == 1 then values[0]
    else
      var m := Max(values[..|values| - 1]);
      if values[|values| - 1] > m then values[|values| - 1] else m
  }

  /** Minimum and maximum are attained and bound every value. */
  lemma {:induction false} Extremes(values: seq<real>)
    requires values != []
    ensures Min(values) in values && Max(values) in values
    ensures forall v :: v in values ==> Min(values) <= v <= Max(values)
    decreases |values|
  {
    if |values| > 1 {
      var init := values[..|values| - 1];
      Extremes(init);
      assert values == init + [values[|values| - 1]];
    }
  }

  /** A sum of values no smaller than `lo` is at least `|values|` times `lo`. */
  lemma {:induction false} SumAtLeast(values: seq<real>, lo: real)
    requires forall k :: 0 <= k < |values| ==> lo <= values[k]
    ensures |values| as real * lo <= Sum(values)
    decreases |values|
  {
    if values != [] {
      var init := values[..|values| - 1];
      SumAtLeast(init, lo);
      assert |values| as real * lo == |init| as real * lo + lo;
    }
  }

  /** A sum of values no larger than `hi` is at most `|values|` times `hi`. */
  lemma {:induction false} SumAtMost(values: seq<real>, hi: real)
    requires forall k :: 0 <= k < |values| ==> values[k] <= hi
    ensures Sum(values) <= |values| as real * hi
    decreases |values|
  {
    if values != [] {
      var init := values[..|values| - 1];
      SumAtMost(init, hi);
      assert |values| as real * hi == |init| as real * hi + hi;
    }
  }

  /** A total between `n * lo` and `n * hi` has its mean between `lo` and `hi`. */
  lemma MeanBetween(n: real, total: real, lo: real, hi: real)
    requires n > 0.0 && n * lo <= total <= n * hi
    ensures lo <= total / n <= hi
  {
    var mean := total / n;
    assert total == n * mean;
    assert n * lo <= n * mean;
    assert n * mean <= n * hi;
  }

  /** The numeric summary: the mean to two decimals, minimum and maximum; none without values. */
  function Summary(values: seq<real>): Option<NumericSummary> {
    if values == [] then None
    else Some(NumericSummary(ToFixed2(Sum(values) / |values| as real), Min(values), Max(values)))
  }

  /** Absent exactly without values; otherwise the minimum and maximum are collected values
      bounding all others, and the rounded average lies within half a hundredth of that range. */
  lemma SummaryBounds(values: seq<real>)
    ensures Summary(values).None? <==> values == []
    ensures Summary(values).Some? ==> var r := Summary(values).value;
      && r.min in values && r.max in values
      && (forall v :: v in values ==> r.min <= v <= r.max)
      && r.min - 0.005 <= r.average <= r.max + 0.005
  {
    if values != [] {
      Extremes(values);
      forall k | 0 <= k < |values|
        ensures Min(values) <= values[k] <= Max(values)
      {
        assert values[k] in values;
      }
      SumAtLeast(values, Min(values));
      SumAtMost(values, Max(values));
      MeanBetween(|values| as real, Sum(values), Min(values), Max(values));
    }
  }

  // ---------------------------------------------------------------- one insight

  /** `sort((a, b) => b.count - a.count).slice(0, 5)` of the choice statistics. */
  function TopOf(s: AccState): seq<ChoiceStatistic> {
    Take(SortBy(Statistics(s.choiceCounts, s.responseCount), ByCount), TopChoiceLimit)
  }

  /** The insight built from one accumulator: choices ranked by count and cut to five,
      Yes/No ranked by count, the numeric summary and the samples, each absent when empty. */
  function Finalized(key: string, s: AccState): QuestionInsight {
    var breakdown := SortBy(Statistics(s.booleanCounts, s.responseCount), ByCount);
    QuestionInsight(
      key, s.questionLabel, s.questionType, s.responseCount,
      NonEmpty(TopOf(s)), Summary(s.numericValues), NonEmpty(breakdown), NonEmpty(s.textSamples))
  }

  /** Each part of an insight is absent exactly when its source is empty, and the accumulator's
      label, type, count and samples are carried over. */
  lemma FinalizedParts(key: string, s: AccState)
    ensures var q := Finalized(key, s);
      && q.key == key && q.questionLabel == s.questionLabel && q.questionType == s.questionType
      && q.responseCount == s.responseCount
      && (q.topChoices.None? <==> s.choiceCounts == [])
      && (q.booleanBreakdown.None? <==> s.booleanCounts == [])
      && (q.numericSummary.None? <==> s.numericValues == [])
      && (q.textSamples.None? <==> s.textSamples == [])
      && (q.textSamples.Some? ==> q.textSamples.value == s.textSamples)
  {
    var stats := Statistics(s.choiceCounts, s.responseCount);
    var sorted := SortBy(stats, ByCount);
    assert |Take(sorted, TopChoiceLimit)| == if |stats| < TopChoiceLimit then |stats| else TopChoiceLimit;
    SummaryBounds(s.numericValues);
  }

  /** Each top choice is the statistic of a counted choice. */
  lemma TopFromCounts(s: AccState)
    ensures forall x :: x in TopOf(s) ==> exists e :: e in s.choiceCounts && x == StatisticOf(e, s.responseCount)
  {
    var stats := Statistics(s.choiceCounts, s.responseCount);
    forall x | x in TopOf(s)
      ensures exists e :: e in s.choiceCounts && x == StatisticOf(e, s.responseCount)
    {
      InSortBy(stats, ByCount, x);
      var i :| 0 <= i < |stats| && stats[i] == x;
      assert s.choiceCounts[i] in s.choiceCounts;
    }
  }

  /** No counted choice cut from the top has a larger count than one kept. */
  lemma TopMaximal(s: AccState)
    ensures forall e, x :: e in s.choiceCounts && x in TopOf(s) && StatisticOf(e, s.responseCount) !in TopOf(s)
              ==> e.count <= x.count
  {
    var total := s.responseCount;
    var stats := Statistics(s.choiceCounts, total);
    var sorted := SortBy(stats, ByCount);
    var top := TopOf(s);
    ByCountTotal();
    SortBySorted(stats, ByCount);
    forall e, x | e in s.choiceCounts && x in top && StatisticOf(e, total) !in top
      ensures e.count <= x.count
    {
      var i :| 0 <= i < |s.choiceCounts| && s.choiceCounts[i] == e;
      assert stats[i] == StatisticOf(e, total);
      InSortBy(stats, ByCount, stats[i]);
      var j :| 0 <= j < |sorted| && sorted[j] == stats[i];
      var k :| 0 <= k < |top| && top[k] == x;
      assert top[k] == sorted[k];
      assert ByCount(sorted[k], sorted[j]);
    }
  }

  /** The top choices: the first five (or all, when fewer) of the statistics, drawn without
      repetition, by non-increasing count, and no choice left out has a larger count than one kept. */
  lemma TopChoices(key: string, s: AccState)
    ensures var q := Finalized(key, s);
      q.topChoices.Some? ==> var top := q.topChoices.value;
        && 0 < |top| <= TopChoiceLimit
        && |top| == (if |s.choiceCounts| < TopChoiceLimit then |s.choiceCounts| else TopChoiceLimit)
        && multiset(top) <= multiset(Statistics(s.choiceCounts, s.responseCount))
        && Sorted(top, ByCount)
        && (forall x :: x in top ==> exists e :: e in s.choiceCounts && x == StatisticOf(e, s.responseCount))
        && (forall e, x :: e in s.choiceCounts && x in top && StatisticOf(e, s.responseCount) !in top
              ==> e.count <= x.count)
  {
    var stats := Statistics(s.choiceCounts, s.responseCount);
    ByCountTotal();
    SortBySorted(stats, ByCount);
    TakeDrawn(SortBy(stats, ByCount), TopChoiceLimit);
    TopFromCounts(s);
    TopMaximal(s);
    assert Finalized(key, s).topChoices == NonEmpty(TopOf(s));
  }

  /** The Yes/No breakdown lists every boolean counter entry once, by non-increasing count. */
  lemma BooleanBreakdown(key: string, s: AccState)
    ensures var q := Finalized(key, s);
      q.booleanBreakdown.Some? ==> var b := q.booleanBreakdown.value;
        && Sorted(b, ByCount)
        && multiset(b) == multiset(Statistics(s.booleanCounts, s.responseCount))
  {
    ByCountTotal();
    SortBySorted(Statistics(s.booleanCounts, s.responseCount), ByCount);
  }

  // ---------------------------------------------------------------- all insights

  /** The insights pushed for `keys`, in map order. */
  function FinalizedAll(keys: seq<string>, states: map<string, AccState>): (r: seq<QuestionInsight>)
    requires forall k :: k in keys ==> k in states
    ensures |r| == |keys|
  {
    seq(|keys|, i requires 0 <= i < |keys| => Finalized(keys[i], states[keys[i]]))
  }

  /** The comparator `(a, b) => a.label.localeCompare(b.label)`. */
  function LabelOrder(rt: Runtime): (QuestionInsight, QuestionInsight) -> bool {
    (a: QuestionInsight, b: QuestionInsight) => rt.localeLeq(a.questionLabel, b.questionLabel)
  }

  /** `localeCompare` ranks all strings consistently. */
  ghost predicate CollationIsTotal(rt: Runtime) {
    && (forall a, b :: rt.localeLeq(a, b) || rt.localeLeq(b, a))
    && (forall a, b, c :: rt.localeLeq(a, b) && rt.localeLeq(b, c) ==> rt.localeLeq(a, c))
  }

  /** `buildQuestionInsights`: one insight per key, sorted by label. */
  function BuildInsights(keys: seq<string>, states: map<string, AccState>, rt: Runtime): seq<QuestionInsight>
    requires forall k :: k in keys ==> k in states
  {
    SortBy(FinalizedAll(keys, states), LabelOrder(rt))
  }

  /** There is one insight per key, each finalised from that key's accumulator. */
  lemma BuildInsightsMembers(keys: seq<string>, states: map<string, AccState>, rt: Runtime)
    requires forall k :: k in keys ==> k in states
    ensures var r := BuildInsights(keys, states, rt);
      && |r| == |keys|
      && forall q :: q in r <==> q.key in keys && q == Finalized(q.key, states[q.key])
  {
    forall q | q in BuildInsights(keys, states, rt)
      ensures q.key in keys && q == Finalized(q.key, states[q.key])
    {
      BuildInsightsSound(keys, states, rt, q);
    }
    forall q: QuestionInsight | q.key in keys && q == Finalized(q.key, states[q.key])
      ensures q in BuildInsights(keys, states, rt)
    {
      BuildInsightsComplete(keys, states, rt, q);
    }
  }

  lemma BuildInsightsSound(keys: seq<string>, states: map<string, AccState>, rt: Runtime, q: QuestionInsight)
    requires forall k :: k in keys ==> k in states
    requires q in BuildInsights(keys, states, rt)
    ensures q.key in keys && q == Finalized(q.key, states[q.key])
  {
    var all := FinalizedAll(keys, states);
    InSortBy(all, LabelOrder(rt), q);
    var i :| 0 <= i < |all| && all[i] == q;
    assert q.key == keys[i];
  }

  lemma BuildInsightsComplete(keys: seq<string>, states: map<string, AccState>, rt: Runtime, q: QuestionInsight)
    requires forall k :: k in keys ==> k in states
    requires q.key in keys && q == Finalized(q.key, states[q.key])
    ensures q in BuildInsights(keys, states, rt)
  {
    var all := FinalizedAll(keys, states);
    var i :| 0 <= i < |keys| && keys[i] == q.key;
    assert all[i] == q;
    InSortBy(all, LabelOrder(rt), q);
  }

  /** When the collation is a total order, the insights are sorted by label. */
  lemma BuildInsightsSorted(keys: seq<string>, states: map<string, AccState>, rt: Runtime)
    requires forall k :: k in keys ==> k in states
    requires CollationIsTotal(rt)
    ensures var r := BuildInsights(keys, states, rt);
      forall i, j :: 0 <= i < j < |r| ==> rt.localeLeq(r[i].questionLabel, r[j].questionLabel)
  {
    var leq := LabelOrder(rt);
    forall a, b ensures leq(a, b) || leq(b, a) {
      assert rt.localeLeq(a.questionLabel, b.questionLabel) || rt.localeLeq(b.questionLabel, a.questionLabel);
    }
    forall a, b, c | leq(a, b) && leq(b, c) ensures leq(a, c) {
      assert rt.localeLeq(a.questionLabel, b.questionLabel) && rt.localeLeq(b.questionLabel, c.questionLabel);
    }
    SortBySorted(FinalizedAll(keys, states), leq);
  }
}
