/** The two diagnostic reports over form questions: the questions route counts the answers of
    the responses fetched from Tally, the debug route those of the latest stored summaries.
    Both fill a map keyed by question id in first-seen order, bumping a counter for each
    further answer. */
module QuestionReports {
  import opened Wrappers
  import opened Sorting
  import opened TallyClient
  import opened ConvexTables
  import opened ConvexTally

  // ---------------------------------------------------------------- the question map

  /** An answer as the reports see it: its question's id, label and type. */
  datatype Sighting = Sighting(key: string, questionLabel: string, questionType: string)

  /** A map entry: the label and type of the first answer seen, and the count so far. */
  datatype QuestionData = QuestionData(questionLabel: string, questionType: string, count: nat)

  /** The map's keys in insertion order, and its entries. */
  datatype QuestionState = QuestionState(keys: seq<string>, data: map<string, QuestionData>)

  const NoQuestions: QuestionState := QuestionState([], map[])

  /** One answer: a known question's count goes up, a new question is added with count 1. */
  function Step(st: QuestionState, s: Sighting): QuestionState {
    if s.key in st.data then st.(data := st.data[s.key := st.data[s.key].(count := st.data[s.key].count + 1)])
    else QuestionState(st.keys + [s.key], st.data[s.key := QuestionData(s.questionLabel, s.questionType, 1)])
  }

  /** The map after the answers `xs`, in order. */
  function Filled(xs: seq<Sighting>): QuestionState {
    if xs == [] then NoQuestions else Step(Filled(xs[..|xs| - 1]), xs[|xs| - 1])
  }

  lemma FilledAppend(xs: seq<Sighting>, x: Sighting)
    ensures Filled(xs + [x]) == Step(Filled(xs), x)
  {
    assert (xs + [x])[..|xs|] == xs;
  }

  /** The number of answers to question `k`. */
  function Occurrences(xs: seq<Sighting>, k: string): nat {
    if xs == [] then 0
    else Occurrences(xs[..|xs| - 1], k) + (if xs[|xs| - 1].key == k then 1 else 0)
  }

  /** Some answer in `xs` is to question `k`. */
  ghost predicate Answered(xs: seq<Sighting>, k: string) {
    exists i :: 0 <= i < |xs| && xs[i].key == k
  }

  /** `xs[i]` is the first answer to question `k`. */
  ghost predicate FirstSighting(xs: seq<Sighting>, k: string, i: int) {
    && 0 <= i < |xs| && xs[i].key == k
    && forall j :: 0 <= j < i ==> xs[j].key != k
  }

  /** The keys are those of the entries, each once. */
  ghost predicate Coherent(st: QuestionState) {
    && (forall k :: k in st.data <==> k in st.keys)
    && (forall a, b :: 0 <= a < b < |st.keys| ==> st.keys[a] != st.keys[b])
  }

  lemma {:induction false} FilledCoherent(xs: seq<Sighting>)
    ensures Coherent(Filled(xs))
  {
    if xs != [] {
      FilledCoherent(xs[..|xs| - 1]);
    }
  }

  /** The map holds exactly the questions that were answered. */
  lemma {:induction false} FilledKeys(xs: seq<Sighting>)
    ensures forall k :: k in Filled(xs).data <==> Answered(xs, k)
  {
    if xs != [] {
      var init := xs[..|xs| - 1];
      FilledKeys(init);
      forall k | Answered(xs, k)
        ensures k in Filled(xs).data
      {
        var i :| 0 <= i < |xs| && xs[i].key == k;
        if i < |init| {
          assert init[i].key == k;
        }
      }
    }
  }

  /** Each question's count is the number of its answers. */
  lemma {:induction false} FilledCounts(xs: seq<Sighting>)
    ensures forall k :: k in Filled(xs).data ==> Filled(xs).data[k].count == Occurrences(xs, k)
  {
    if xs != [] {
      var init := xs[..|xs| - 1];
      FilledCounts(init);
      FilledKeys(init);
      var x := xs[|xs| - 1];
      if x.key !in Filled(init).data {
        if Occurrences(init, x.key) != 0 {
          OccurrencesSeen(init, x.key);
        }
      }
    }
  }

  lemma {:induction false} OccurrencesSeen(xs: seq<Sighting>, k: string)
    requires Occurrences(xs, k) != 0
    ensures Answered(xs, k)
  {
    var init := xs[..|xs| - 1];
    if xs[|xs| - 1].key != k {
      OccurrencesSeen(init, k);
      var i :| 0 <= i < |init| && init[i].key == k;
      assert xs[i].key == k;
    }
  }

  /** Each question keeps the label and type of its first answer. */
  lemma {:induction false} FilledFirst(xs: seq<Sighting>)
    ensures forall k :: k in Filled(xs).data ==>
      exists i :: (FirstSighting(xs, k, i) && Filled(xs).data[k].questionLabel == xs[i].questionLabel
        && Filled(xs).data[k].questionType == xs[i].questionType)
  {
    if xs != [] {
      var init := xs[..|xs| - 1];
      var x := xs[|xs| - 1];
      FilledFirst(init);
      FilledKeys(init);
      forall k | k in Filled(xs).data
        ensures exists i :: (FirstSighting(xs, k, i) && Filled(xs).data[k].questionLabel == xs[i].questionLabel
          && Filled(xs).data[k].questionType == xs[i].questionType)
      {
        if k in Filled(init).data {
          var i :| FirstSighting(init, k, i) && Filled(init).data[k].questionLabel == init[i].questionLabel
            && Filled(init).data[k].questionType == init[i].questionType;
          assert FirstSighting(xs, k, i);
        } else {
          assert FirstSighting(xs, k, |xs| - 1);
        }
      }
    }
  }

  /** The keys come in the order their first answers do. */
  lemma FilledOrder(xs: seq<Sighting>)
    ensures var keys := Filled(xs).keys;
      forall a, b, i, j :: 0 <= a < b < |keys| && FirstSighting(xs, keys[a], i) && FirstSighting(xs, keys[b], j) ==> i < j
  {
    var keys := Filled(xs).keys;
    forall a, b, i, j | 0 <= a < b < |keys| && FirstSighting(xs, keys[a], i) && FirstSighting(xs, keys[b], j)
      ensures i < j
    {
      KeyOrder(xs, a, b, i, j);
    }
  }

  lemma {:induction false} KeyOrder(xs: seq<Sighting>, a: nat, b: nat, i: nat, j: nat)
    requires a < b < |Filled(xs).keys|
    requires FirstSighting(xs, Filled(xs).keys[a], i) && FirstSighting(xs, Filled(xs).keys[b], j)
    ensures i < j
  {
    var init, x := xs[..|xs| - 1], xs[|xs| - 1];
    var st := Filled(init);
    var keys := Filled(xs).keys;
    assert Filled(xs) == Step(st, x);
    FilledKeys(init);
    FilledCoherent(init);
    assert keys[a] == st.keys[a];
    FirstInInit(xs, keys[a], i);
    if b < |st.keys| {
      assert keys[b] == st.keys[b];
      FirstInInit(xs, keys[b], j);
      KeyOrder(init, a, b, i, j);
    } else {
      assert keys[b] == x.key && !Answered(init, x.key);
    }
  }

  /** The first answer to a question already answered in `init` lies within `init`. */
  lemma FirstInInit(xs: seq<Sighting>, k: string, i: nat)
    requires xs != [] && FirstSighting(xs, k, i) && Answered(xs[..|xs| - 1], k)
    ensures FirstSighting(xs[..|xs| - 1], k, i)
  {
  }

  /** The JavaScript `Map` the reports fill. */
  class QuestionMap {
    var keys: seq<string>
    var data: map<string, QuestionData>

    function State(): QuestionState
      reads this
    {
      QuestionState(keys, data)
    }

    constructor()
      ensures State() == NoQuestions
    {
      keys, data := [], map[];
    }

    /** `existing.count++`, or `questionMap.set(key, {label, type, count: 1})`. */
    method Record(s: Sighting)
      modifies this
      ensures State() == Step(old(State()), s)
    {
      if s.key in data {
        var existing := data[s.key];
        data := data[s.key := existing.(count := existing.count + 1)];
      } else {
        keys := keys + [s.key];
        data := data[s.key := QuestionData(s.questionLabel, s.questionType, 1)];
      }
    }
  }

  /** A line of a report. */
  datatype QuestionCount = QuestionCount(id: string, questionLabel: string, questionType: string, responseCount: nat)

  /** `Array.from(questionMap.entries()).map(...)`: one line per key, in insertion order. */
  function Lines(keys: seq<string>, data: map<string, QuestionData>): (r: seq<QuestionCount>)
    requires forall k :: k in keys ==> k in data
    ensures |r| == |keys|
    ensures forall i :: 0 <= i < |keys| ==>
      r[i] == QuestionCount(keys[i], data[keys[i]].questionLabel, data[keys[i]].questionType, data[keys[i]].count)
  {
    if keys == [] then []
    else Lines(keys[..|keys| - 1], data) + [Lines1(keys[|keys| - 1], data)]
  }

  function Lines1(k: string, data: map<string, QuestionData>): QuestionCount
    requires k in data
  {
    QuestionCount(k, data[k].questionLabel, data[k].questionType, data[k].count)
  }

  /** The lines of the map filled from the answers `xs`. */
  function QuestionsOf(xs: seq<Sighting>): seq<QuestionCount> {
    FilledCoherent(xs);
    Lines(Filled(xs).keys, Filled(xs).data)
  }

  /** A line lists question `k`. */
  ghost predicate Listed(qs: seq<QuestionCount>, k: string) {
    exists q :: q in qs && q.id == k
  }

  /** A line gives its question's number of answers in `xs` and the label and type of the
      first of them. */
  ghost predicate Describes(q: QuestionCount, xs: seq<Sighting>) {
    && q.responseCount == Occurrences(xs, q.id)
    && exists i :: (FirstSighting(xs, q.id, i) && q.questionLabel == xs[i].questionLabel
         && q.questionType == xs[i].questionType)
  }

  /** One line per answered question, each once, with its number of answers and the label and
      type of its first answer. */
  lemma QuestionsOfSpec(xs: seq<Sighting>)
    ensures var qs := QuestionsOf(xs);
      && (forall a, b :: 0 <= a < b < |qs| ==> qs[a].id != qs[b].id)
      && (forall k :: Listed(qs, k) <==> Answered(xs, k))
      && (forall q :: q in qs ==> Describes(q, xs))
  {
    var qs := QuestionsOf(xs);
    QuestionsOfIds(xs);
    forall q | q in qs
      ensures Describes(q, xs)
    {
      QuestionsOfLine(xs, q);
    }
  }

  lemma QuestionsOfIds(xs: seq<Sighting>)
    ensures var qs := QuestionsOf(xs);
      && (forall a, b :: 0 <= a < b < |qs| ==> qs[a].id != qs[b].id)
      && (forall k :: Listed(qs, k) <==> Answered(xs, k))
  {
    var st := Filled(xs);
    FilledCoherent(xs);
    FilledKeys(xs);
    var qs := QuestionsOf(xs);
    assert forall l :: 0 <= l < |qs| ==> qs[l].id == st.keys[l];
    forall k | Answered(xs, k)
      ensures Listed(qs, k)
    {
      assert k in st.keys;
      var l :| 0 <= l < |st.keys| && st.keys[l] == k;
      assert qs[l] in qs;
    }
    forall k | Listed(qs, k)
      ensures Answered(xs, k)
    {
      var q :| q in qs && q.id == k;
      var l :| 0 <= l < |qs| && qs[l] == q;
      assert st.keys[l] in st.data;
    }
  }

  lemma QuestionsOfLine(xs: seq<Sighting>, q: QuestionCount)
    requires q in QuestionsOf(xs)
    ensures Describes(q, xs)
  {
    var st := Filled(xs);
    FilledCoherent(xs);
    FilledCounts(xs);
    FilledFirst(xs);
    var qs := QuestionsOf(xs);
    var l :| 0 <= l < |qs| && qs[l] == q;
    var k := st.keys[l];
    assert k in st.data && q == QuestionCount(k, st.data[k].questionLabel, st.data[k].questionType, st.data[k].count);
  }

  // ---------------------------------------------------------------- answer totals

  /** The sum of the counts of the lines. */
  function TotalCount(qs: seq<QuestionCount>): nat {
    if qs == [] then 0 else TotalCount(qs[..|qs| - 1]) + qs[|qs| - 1].responseCount
  }

  /** The sum of the counts of the entries under `keys`. */
  function Total(keys: seq<string>, data: map<string, QuestionData>): nat
    requires forall k :: k in keys ==> k in data
  {
    if keys == [] then 0 else Total(keys[..|keys| - 1], data) + data[keys[|keys| - 1]].count
  }

  lemma {:induction false} TotalOutside(keys: seq<string>, data: map<string, QuestionData>, k: string, d: QuestionData)
    requires forall k :: k in keys ==> k in data
    requires k !in keys
    ensures Total(keys, data[k := d]) == Total(keys, data)
  {
    if keys != [] {
      TotalOutside(keys[..|keys| - 1], data, k, d);
    }
  }

  lemma {:induction false} TotalBump(keys: seq<string>, data: map<string, QuestionData>, k: string)
    requires forall k :: k in keys ==> k in data
    requires forall a, b :: 0 <= a < b < |keys| ==> keys[a] != keys[b]
    requires k in keys
    ensures Total(keys, data[k := data[k].(count := data[k].count + 1)]) == Total(keys, data) + 1
  {
    var init := keys[..|keys| - 1];
    var d := data[k].(count := data[k].count + 1);
    if keys[|keys| - 1] == k {
      assert k !in init;
      TotalOutside(init, data, k, d);
    } else {
      assert k in init;
      TotalBump(init, data, k);
    }
  }

  /** Every answer is counted once: the counts add up to the number of answers. */
  lemma {:induction false} FilledTotal(xs: seq<Sighting>)
    ensures Coherent(Filled(xs)) && Total(Filled(xs).keys, Filled(xs).data) == |xs|
  {
    FilledCoherent(xs);
    if xs != [] {
      var init := xs[..|xs| - 1];
      var x := xs[|xs| - 1];
      FilledTotal(init);
      var st := Filled(init);
      if x.key in st.data {
        TotalBump(st.keys, st.data, x.key);
      } else {
        TotalOutside(st.keys, st.data, x.key, QuestionData(x.questionLabel, x.questionType, 1));
      }
    }
  }

  lemma {:induction false} LinesTotal(keys: seq<string>, data: map<string, QuestionData>)
    requires forall k :: k in keys ==> k in data
    ensures TotalCount(Lines(keys, data)) == Total(keys, data)
  {
    if keys != [] {
      var init := keys[..|keys| - 1];
      LinesTotal(init, data);
      assert Lines(keys, data)[..|init|] == Lines(init, data);
    }
  }

  /** The lines' counts add up to the number of answers. */
  lemma QuestionsOfTotal(xs: seq<Sighting>)
    ensures TotalCount(QuestionsOf(xs)) == |xs|
  {
    FilledTotal(xs);
    LinesTotal(Filled(xs).keys, Filled(xs).data);
  }

  // ---------------------------------------------------------------- the nested loops

  /** All answers of all groups, in order. */
  function Flatten(groups: seq<seq<Sighting>>): seq<Sighting> {
    if groups == [] then [] else Flatten(groups[..|groups| - 1]) + groups[|groups| - 1]
  }

  /** `for (const response of ...) for (const answer of response.answers)` filling the map. */
  method CollectQuestions(groups: seq<seq<Sighting>>) returns (questions: seq<QuestionCount>)
    ensures questions == QuestionsOf(Flatten(groups))
  {
    var m := new QuestionMap();
    var i := 0;
    while i < |groups|
      invariant 0 <= i <= |groups|
      invariant m.State() == Filled(Flatten(groups[..i]))
    {
      var seen := Flatten(groups[..i]);
      var j := 0;
      assert seen + groups[i][..j] == seen;
      while j < |groups[i]|
        invariant 0 <= j <= |groups[i]|
        invariant m.State() == Filled(seen + groups[i][..j])
      {
        m.Record(groups[i][j]);
        FilledAppend(seen + groups[i][..j], groups[i][j]);
        assert seen + groups[i][..j + 1] == seen + groups[i][..j] + [groups[i][j]];
        j := j + 1;
      }
      assert groups[..i + 1][..i] == groups[..i];
      assert groups[i][..j] == groups[i];
      i := i + 1;
    }
    assert groups[..i] == groups;
    FilledCoherent(Flatten(groups));
    questions := Lines(m.keys, m.data);
  }

  // ---------------------------------------------------------------- the questions route

  const NoSubmissionsMessage: string := "No submissions found"

  /** The JSON the questions route answers with. */
  datatype QuestionsReply =
    | QuestionsMessage(message: string)
    | QuestionsReport(totalSubmissions: nat, questions: seq<QuestionCount>)
    | QuestionsFailed(error: string)   // status 500

  function AnswerSightings(answers: seq<NormalizedAnswer>): (r: seq<Sighting>)
    ensures |r| == |answers|
    ensures forall j :: 0 <= j < |answers| ==>
      r[j] == Sighting(answers[j].key, answers[j].questionLabel, answers[j].questionType)
  {
    if answers == [] then []
    else
      var a := answers[|answers| - 1];
      AnswerSightings(answers[..|answers| - 1]) + [Sighting(a.key, a.questionLabel, a.questionType)]
  }

  function ResponseSightings(responses: seq<NormalizedResponse>): (r: seq<seq<Sighting>>)
    ensures |r| == |responses|
    ensures forall k :: 0 <= k < |responses| ==> r[k] == AnswerSightings(responses[k].answers)
  {
    if responses == [] then []
    else ResponseSightings(responses[..|responses| - 1]) + [AnswerSightings(responses[|responses| - 1].answers)]
  }

  /** The comparator `(a, b) => b.responseCount - a.responseCount`. */
  function MoreResponses(): (QuestionCount, QuestionCount) -> bool {
    (a: QuestionCount, b: QuestionCount) => a.responseCount >= b.responseCount
  }

  /** `GET /api/tally-questions` given what `fetchFormResponses()` produced. */
  method QuestionsRoute(fetched: Result<seq<NormalizedResponse>, FetchError>) returns (reply: QuestionsReply)
    ensures fetched.Failure? ==> reply == QuestionsFailed(fetched.error.message)
    ensures fetched.Success? && fetched.value == [] ==> reply == QuestionsMessage(NoSubmissionsMessage)
    ensures fetched.Success? && fetched.value != [] ==>
      reply == QuestionsReport(|fetched.value|, SortBy(QuestionsOf(Flatten(ResponseSightings(fetched.value))), MoreResponses()))
  {
    if fetched.Failure? {
      return QuestionsFailed(fetched.error.message);
    }
    var responses := fetched.value;
    if |responses| == 0 {
      return QuestionsMessage(NoSubmissionsMessage);
    }
    var questions := CollectQuestions(ResponseSightings(responses));
    reply := QuestionsReport(|responses|, SortBy(questions, MoreResponses()));
  }

  /** The questions report holds the lines of the map, each answered question once, with its
      number of answers across all responses and the label and type of its first answer,
      ordered by count, highest first. */
  lemma QuestionsReportSpec(responses: seq<NormalizedResponse>)
    ensures var xs := Flatten(ResponseSightings(responses));
      var qs := SortBy(QuestionsOf(xs), MoreResponses());
      && multiset(qs) == multiset(QuestionsOf(xs))
      && (forall a, b :: 0 <= a < b < |qs| ==> qs[a].responseCount >= qs[b].responseCount)
      && (forall k :: Listed(qs, k) <==> Answered(xs, k))
      && (forall q :: q in qs ==> Describes(q, xs))
  {
    var xs := Flatten(ResponseSightings(responses));
    var all := QuestionsOf(xs);
    QuestionsOfSpec(xs);
    ReportSorted(all);
    forall q
      ensures q in SortBy(all, MoreResponses()) <==> q in all
    {
      InSortBy(all, MoreResponses(), q);
    }
  }

  /** Sorting by count orders the lines by count, highest first. */
  lemma ReportSorted(all: seq<QuestionCount>)
    ensures var qs := SortBy(all, MoreResponses());
      forall a, b :: 0 <= a < b < |qs| ==> qs[a].responseCount >= qs[b].responseCount
  {
    var qs := SortBy(all, MoreResponses());
    assert TotalPreorder(MoreResponses());
    SortBySorted(all, MoreResponses());
    forall a, b | 0 <= a < b < |qs|
      ensures qs[a].responseCount >= qs[b].responseCount
    {
      assert MoreResponses()(qs[a], qs[b]);
    }
  }

  // ---------------------------------------------------------------- the debug route

  const DebugLimit: nat := 100

  datatype DebugReport = DebugReport(totalSubmissions: nat, totalAnswers: nat, questions: seq<QuestionCount>)

  function RowSightings(rows: seq<AnswerRow>): (r: seq<Sighting>)
    ensures |r| == |rows|
    ensures forall j :: 0 <= j < |rows| ==>
      r[j] == Sighting(rows[j].questionId, rows[j].questionLabel, rows[j].questionType)
  {
    if rows == [] then []
    else
      var a := rows[|rows| - 1];
      RowSightings(rows[..|rows| - 1]) + [Sighting(a.questionId, a.questionLabel, a.questionType)]
  }

  function SummarySightings(results: seq<Summary>): (r: seq<seq<Sighting>>)
    ensures |r| == |results|
    ensures forall k :: 0 <= k < |results| ==> r[k] == RowSightings(results[k].answers)
  {
    if results == [] then []
    else SummarySightings(results[..|results| - 1]) + [RowSightings(results[|results| - 1].answers)]
  }

  /** `results.reduce((sum, r) => sum + r.answers.length, 0)` */
  function AnswerTotal(results: seq<Summary>): nat {
    if results == [] then 0 else AnswerTotal(results[..|results| - 1]) + |results[|results| - 1].answers|
  }

  lemma {:induction false} FlattenSummaries(results: seq<Summary>)
    ensures |Flatten(SummarySightings(results))| == AnswerTotal(results)
  {
    if results != [] {
      var init := results[..|results| - 1];
      FlattenSummaries(init);
      assert SummarySightings(results)[..|init|] == SummarySightings(init);
    }
  }

  /** `GET /api/tally-debug` against the deployment's store. */
  method DebugRoute(store: TallyStore, tallyFormId: Option<string>) returns (report: DebugReport)
    ensures var results := RecentSummaries(store.State(), tallyFormId.GetOr(DefaultFormId), Some(DebugLimit));
      report == DebugReport(|results|, AnswerTotal(results), QuestionsOf(Flatten(SummarySightings(results))))
  {
    var results := store.GetRecentSummaries(tallyFormId.GetOr(DefaultFormId), Some(DebugLimit));
    var questions := CollectQuestions(SummarySightings(results));
    report := DebugReport(|results|, AnswerTotal(results), questions);
  }

  /** The debug report covers at most 100 of the form's submissions, and its answer total is the
      sum of its per-question counts. */
  lemma DebugReportSpec(db: Db, formId: string)
    requires Valid(db)
    ensures var results := RecentSummaries(db, formId, Some(DebugLimit));
      && |results| <= DebugLimit
      && (forall k :: 0 <= k < |results| ==> results[k].submission.formId == formId)
      && AnswerTotal(results) == TotalCount(QuestionsOf(Flatten(SummarySightings(results))))
  {
    var results := RecentSummaries(db, formId, Some(DebugLimit));
    RecentIdsMembers(db, formId, Some(DebugLimit));
    var ids := RecentIds(db, formId, Some(DebugLimit));
    forall k | 0 <= k < |results|
      ensures results[k].submission.formId == formId
    {
      assert ids[k] in ids;
    }
    FlattenSummaries(results);
    QuestionsOfTotal(Flatten(SummarySightings(results)));
  }
}
