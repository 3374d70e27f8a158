/** The two Convex tables of the forms pipeline, `tallySubmissions` and `tallyAnswers`, held
    as maps from document ids to rows, with the index scans and writes the mutations use.
    Document ids come from a counter, so ascending ids are creation order, and an index scan
    lists rows with equal index keys in that order. */
module ConvexTables {
  import opened Wrappers
  import opened JsRuntime
  import opened Sorting

  type Id = nat

  // ---------------------------------------------------------------- tables

  /** A `tallySubmissions` document. */
  datatype SubmissionRow = SubmissionRow(
    formId: string, submissionId: string, submittedAt: Option<int>, completed: bool,
    syncedAt: int, respondentName: Option<string>, respondentLinkedIn: Option<string>)

  /** A `tallyAnswers` document; `submissionRef` is the id of its submission document. */
  datatype AnswerRow = AnswerRow(
    submissionRef: Id, questionId: string, questionLabel: string, questionType: string,
    valueString: Option<string>, valueNumber: Option<real>, valueBoolean: Option<bool>,
    valueList: Option<seq<string>>)

  /** The database: both tables and the next unused document id. */
  datatype Db = Db(submissions: map<Id, SubmissionRow>, answers: map<Id, AnswerRow>, nextId: Id)

  const EmptyDb: Db := Db(map[], map[], 0)

  /** Every document id in use, and every id an answer refers to, was handed out before
      `nextId`. */
  ghost predicate Valid(db: Db) {
    && (forall id :: id in db.submissions ==> id < db.nextId)
    && (forall id :: id in db.answers ==> id < db.nextId && db.answers[id].submissionRef < db.nextId)
  }

  /** At most one submission document per form and Tally submission id. */
  ghost predicate UniqueKeys(db: Db) {
    forall a, b ::
      (&& a in db.submissions && b in db.submissions
       && db.submissions[a].formId == db.submissions[b].formId
       && db.submissions[a].submissionId == db.submissions[b].submissionId)
      ==> a == b
  }

  // ---------------------------------------------------------------- index scans

  /** The ids below `n` that satisfy `keep`, ascending. */
  function Ascending(n: nat, keep: Id -> bool): (r: seq<Id>)
    ensures forall i :: 0 <= i < |r| ==> r[i] < n && keep(r[i])
  {
    if n == 0 then [] else Ascending(n - 1, keep) + (if keep(n - 1) then [n - 1] else [])
  }

  /** Every id below `n` that satisfies `keep` is listed, once, in increasing order. */
  lemma {:induction false} AscendingSpec(n: nat, keep: Id -> bool)
    ensures forall x: Id :: x in Ascending(n, keep) <==> x < n && keep(x)
    ensures forall i, j :: 0 <= i < j < |Ascending(n, keep)| ==> Ascending(n, keep)[i] < Ascending(n, keep)[j]
  {
    if n > 0 {
      AscendingSpec(n - 1, keep);
    }
  }

  /** When `keep` holds exactly from `lo` upward, the scan lists `lo, lo + 1, ..., n - 1`. */
  lemma {:induction false} AscendingFrom(n: nat, lo: nat, keep: Id -> bool)
    requires lo <= n
    requires forall x: Id :: x < n ==> (keep(x) <==> lo <= x)
    ensures Ascending(n, keep) == seq(n - lo, i => lo + i)
  {
    if n > lo {
      AscendingFrom(n - 1, lo, keep);
    } else if n > 0 {
      AscendingNone(n, keep);
    }
  }

  lemma {:induction false} AscendingNone(n: nat, keep: Id -> bool)
    requires forall x: Id :: x < n ==> !keep(x)
    ensures Ascending(n, keep) == []
  {
    if n > 0 {
      AscendingNone(n - 1, keep);
    }
  }

  /** The ids of the answers of submission document `ref`, as the `by_submission` index
      lists them. */
  function AnswerIdsOf(db: Db, ref: Id): seq<Id> {
    Ascending(db.nextId, RefersTo(db, ref))
  }

  /** Whether a document id is an answer of submission document `ref`. */
  function RefersTo(db: Db, ref: Id): Id -> bool {
    x => x in db.answers && db.answers[x].submissionRef == ref
  }

  /** `tallyAnswers.withIndex("by_submission", q => q.eq("submissionId", ref)).collect()` */
  function AnswersOf(db: Db, ref: Id): (r: seq<AnswerRow>)
    ensures |r| == |AnswerIdsOf(db, ref)|
  {
    var ids := AnswerIdsOf(db, ref);
    seq(|ids|, i requires 0 <= i < |ids| => db.answers[ids[i]])
  }

  /** Whether a document id is a submission document of the form. */
  function InForm(db: Db, formId: string): Id -> bool {
    x => x in db.submissions && db.submissions[x].formId == formId
  }

  /** The ids of the submission documents of a form, in creation order. */
  function FormSubmissionIds(db: Db, formId: string): (r: seq<Id>)
    ensures forall i :: 0 <= i < |r| ==> r[i] in db.submissions && db.submissions[r[i]].formId == formId
  {
    Ascending(db.nextId, InForm(db, formId))
  }

  function SyncedAtOf(db: Db, id: Id): int {
    if id in db.submissions then db.submissions[id].syncedAt else 0
  }

  function Reverse<T>(s: seq<T>): (r: seq<T>)
    ensures |r| == |s| && forall i :: 0 <= i < |s| ==> r[i] == s[|s| - 1 - i]
  {
    if s == [] then [] else [s[|s| - 1]] + Reverse(s[..|s| - 1])
  }

  /** Newer `syncedAt` first. */
  function NewerFirst(db: Db): (Id, Id) -> bool {
    (a: Id, b: Id) => SyncedAtOf(db, a) >= SyncedAtOf(db, b)
  }

  /** `tallySubmissions.withIndex("by_form_synced", q => q.eq("formId", formId)).order("desc")`:
      newest `syncedAt` first, and among equal times the later document first. */
  function NewestFirst(db: Db, formId: string): (r: seq<Id>)
    ensures forall id :: id in r ==> id in db.submissions && db.submissions[id].formId == formId
  {
    SortedScanInForm(db, formId);
    SortBy(Reverse(FormSubmissionIds(db, formId)), NewerFirst(db))
  }

  lemma SortedScanInForm(db: Db, formId: string)
    ensures forall id :: id in SortBy(Reverse(FormSubmissionIds(db, formId)), NewerFirst(db)) ==>
      id in db.submissions && db.submissions[id].formId == formId
  {
    var ids := FormSubmissionIds(db, formId);
    var rev := Reverse(ids);
    forall id | id in SortBy(rev, NewerFirst(db))
      ensures id in db.submissions && db.submissions[id].formId == formId
    {
      InSortBy(rev, NewerFirst(db), id);
      InReverse(ids, id);
    }
  }

  lemma InReverse<T>(s: seq<T>, x: T)
    ensures x in Reverse(s) <==> x in s
  {
    var r := Reverse(s);
    if x in r {
      var k :| 0 <= k < |r| && r[k] == x;
      assert s[|s| - 1 - k] == x;
    }
    if x in s {
      var k :| 0 <= k < |s| && s[k] == x;
      assert r[|s| - 1 - k] == x;
    }
  }

  ghost predicate Distinct<T>(s: seq<T>) {
    forall i, j :: 0 <= i < j < |s| ==> s[i] != s[j]
  }

  /** The descending scan lists every submission document of the form, newest first. */
  lemma NewestFirstSpec(db: Db, formId: string)
    requires Valid(db)
    ensures var r := NewestFirst(db, formId);
      && (forall id :: id in r <==> id in db.submissions && db.submissions[id].formId == formId)
      && Sorted(r, NewerFirst(db))
  {
    NewestFirstComplete(db, formId);
    assert TotalPreorder(NewerFirst(db));
    SortBySorted(Reverse(FormSubmissionIds(db, formId)), NewerFirst(db));
  }

  lemma NewestFirstComplete(db: Db, formId: string)
    requires Valid(db)
    ensures forall id :: id in db.submissions && db.submissions[id].formId == formId ==> id in NewestFirst(db, formId)
  {
    var ids := FormSubmissionIds(db, formId);
    var rev := Reverse(ids);
    AscendingSpec(db.nextId, InForm(db, formId));
    forall id | id in db.submissions && db.submissions[id].formId == formId
      ensures id in NewestFirst(db, formId)
    {
      InReverse(ids, id);
      InSortBy(rev, NewerFirst(db), id);
    }
  }

  /** The descending scan lists no submission document twice. */
  lemma NewestFirstDistinct(db: Db, formId: string)
    ensures Distinct(NewestFirst(db, formId))
  {
    var ids := FormSubmissionIds(db, formId);
    var rev := Reverse(ids);
    AscendingSpec(db.nextId, InForm(db, formId));
    assert Distinct(rev);
    DistinctPermutation(rev, NewestFirst(db, formId));
  }

  /** Older `syncedAt` first. */
  function OlderFirst(db: Db): (Id, Id) -> bool {
    (a: Id, b: Id) => SyncedAtOf(db, a) <= SyncedAtOf(db, b)
  }

  /** `tallySubmissions.withIndex("by_form_synced", q => q.eq("formId", formId))`: oldest
      `syncedAt` first, and among equal times the earlier document first. */
  function OldestFirst(db: Db, formId: string): seq<Id> {
    SortBy(FormSubmissionIds(db, formId), OlderFirst(db))
  }

  /** The ascending scan lists every submission document of the form once, oldest first. */
  lemma OldestFirstSpec(db: Db, formId: string)
    requires Valid(db)
    ensures var r := OldestFirst(db, formId);
      && (forall id :: id in r <==> id in db.submissions && db.submissions[id].formId == formId)
      && Distinct(r) && Sorted(r, OlderFirst(db))
  {
    var ids := FormSubmissionIds(db, formId);
    var r := OldestFirst(db, formId);
    AscendingSpec(db.nextId, InForm(db, formId));
    forall id
      ensures id in r <==> id in ids
    {
      InSortBy(ids, OlderFirst(db), id);
    }
    assert Distinct(ids);
    DistinctPermutation(ids, r);
    assert TotalPreorder(OlderFirst(db));
    SortBySorted(ids, OlderFirst(db));
  }

  /** Whether a document id is the submission document of the form with the Tally id. */
  function HasKey(db: Db, formId: string, submissionId: string): Id -> bool {
    x => x in db.submissions && db.submissions[x].formId == formId && db.submissions[x].submissionId == submissionId
  }

  /** The `by_form_submission` scan for one form and Tally submission id. */
  function KeyScan(db: Db, formId: string, submissionId: string): (r: seq<Id>)
    ensures forall i :: 0 <= i < |r| ==> HasKey(db, formId, submissionId)(r[i])
  {
    Ascending(db.nextId, HasKey(db, formId, submissionId))
  }

  /** A rearrangement of a sequence without repeats has no repeats. */
  lemma DistinctPermutation<T>(a: seq<T>, b: seq<T>)
    requires Distinct(a) && multiset(a) == multiset(b)
    ensures Distinct(b)
  {
    forall i, j | 0 <= i < j < |b|
      ensures b[i] != b[j]
    {
      if b[i] == b[j] {
        RepeatCount(b, i, j);
        DistinctCount(a, b[i]);
        assert false;
      }
    }
  }

  lemma {:induction false} DistinctCount<T>(s: seq<T>, x: T)
    requires Distinct(s)
    ensures multiset(s)[x] <= 1
  {
    if s != [] {
      var init := s[..|s| - 1];
      DistinctCount(init, x);
      assert s == init + [s[|s| - 1]];
      if x == s[|s| - 1] {
        assert x !in init;
      }
    }
  }

  lemma RepeatCount<T>(s: seq<T>, i: nat, j: nat)
    requires i < j < |s| && s[i] == s[j]
    ensures multiset(s)[s[i]] >= 2
  {
    assert s == s[..j] + [s[j]] + s[j + 1..];
    assert s[i] in s[..j];
  }

  // ---------------------------------------------------------------- writes

  /** An answer as `syncSubmissions` receives it. */
  datatype IncomingAnswer = IncomingAnswer(
    questionId: string, questionLabel: string, questionType: string,
    valueString: Option<string>, valueNumber: Option<real>, valueBoolean: Option<bool>,
    valueList: Option<seq<string>>)

  /** A submission as `syncSubmissions` receives it. */
  datatype IncomingSubmission = IncomingSubmission(
    submissionId: string, submittedAt: Option<int>, completed: Option<bool>,
    answers: seq<IncomingAnswer>)

  function RowOf(ref: Id, a: IncomingAnswer): AnswerRow {
    AnswerRow(ref, a.questionId, a.questionLabel, a.questionType,
      a.valueString, a.valueNumber, a.valueBoolean, a.valueList)
  }

  /** The rows stored for `xs` as answers of submission document `ref`, in order. */
  function RowsOf(ref: Id, xs: seq<IncomingAnswer>): (r: seq<AnswerRow>)
    ensures |r| == |xs| && forall j :: 0 <= j < |xs| ==> r[j] == RowOf(ref, xs[j])
  {
    if xs == [] then [] else RowsOf(ref, xs[..|xs| - 1]) + [RowOf(ref, xs[|xs| - 1])]
  }

  /** `db.insert("tallyAnswers", ...)` for one answer of submission document `ref`. */
  function InsertAnswer(db: Db, ref: Id, a: IncomingAnswer): Db {
    db.(answers := db.answers[db.nextId := RowOf(ref, a)], nextId := db.nextId + 1)
  }

  /** The answers inserted one after another. */
  function InsertAnswers(db: Db, ref: Id, xs: seq<IncomingAnswer>): (r: Db)
    ensures r.submissions == db.submissions && r.nextId == db.nextId + |xs|
    decreases |xs|
  {
    if xs == [] then db
    else InsertAnswer(InsertAnswers(db, ref, xs[..|xs| - 1]), ref, xs[|xs| - 1])
  }

  /** Inserting keeps every existing row and adds `xs` under fresh ids `nextId, nextId + 1, ...`. */
  lemma {:induction false} InsertAnswersSpec(db: Db, ref: Id, xs: seq<IncomingAnswer>)
    requires Valid(db) && ref < db.nextId
    ensures var r := InsertAnswers(db, ref, xs);
      && Valid(r) && r.submissions == db.submissions && r.nextId == db.nextId + |xs|
      && (forall id :: id in r.answers <==> id in db.answers || db.nextId <= id < r.nextId)
      && (forall id :: id in db.answers ==> r.answers[id] == db.answers[id])
    decreases |xs|
  {
    if xs != [] {
      InsertAnswersSpec(db, ref, xs[..|xs| - 1]);
    }
  }

  /** The `j`-th inserted answer is stored under id `nextId + j`. */
  lemma {:induction false} InsertedRows(db: Db, ref: Id, xs: seq<IncomingAnswer>)
    ensures var r := InsertAnswers(db, ref, xs);
      && r.nextId == db.nextId + |xs|
      && forall id :: db.nextId <= id < r.nextId ==> id in r.answers && r.answers[id] == RowOf(ref, xs[id - db.nextId])
    decreases |xs|
  {
    if xs != [] {
      var init := xs[..|xs| - 1];
      InsertedRows(db, ref, init);
      var prev := InsertAnswers(db, ref, init);
      forall id | db.nextId <= id < prev.nextId
        ensures prev.answers[id] == RowOf(ref, xs[id - db.nextId])
      {
        assert init[id - db.nextId] == xs[id - db.nextId];
      }
    }
  }

  /** The ids of a sequence, as a set. */
  function Elements(ids: seq<Id>): set<Id> {
    set id | id in ids
  }

  /** Deleting every answer document the `by_submission` scan returns for `ref`: all of them,
      when the ids are in order. */
  function DropAnswersOf(db: Db, ref: Id): (r: Db)
    ensures r.submissions == db.submissions && r.nextId == db.nextId
    ensures forall id :: id in r.answers ==> id in db.answers && r.answers[id] == db.answers[id]
    ensures Valid(db) ==> forall id :: id in r.answers <==> id in db.answers && db.answers[id].submissionRef != ref
  {
    AscendingSpec(db.nextId, RefersTo(db, ref));
    db.(answers := db.answers - Elements(AnswerIdsOf(db, ref)))
  }

  /** The stored answers of `ref` are exactly `xs`, in order, once the old ones are dropped
      and `xs` inserted; no old answer of `ref` is left over. */
  lemma ReplacedAnswers(db: Db, ref: Id, xs: seq<IncomingAnswer>)
    requires Valid(db) && ref < db.nextId
    ensures var r := InsertAnswers(DropAnswersOf(db, ref), ref, xs);
      AnswersOf(r, ref) == RowsOf(ref, xs)
  {
    InsertedAnswersOf(DropAnswersOf(db, ref), ref, xs);
  }

  /** Inserting `xs` for a submission document with no answers yet stores exactly `xs`. */
  lemma InsertedAnswersOf(d: Db, ref: Id, xs: seq<IncomingAnswer>)
    requires Valid(d) && ref < d.nextId
    requires forall id :: id in d.answers ==> d.answers[id].submissionRef != ref
    ensures var r := InsertAnswers(d, ref, xs);
      AnswersOf(r, ref) == RowsOf(ref, xs)
  {
    var r := InsertAnswers(d, ref, xs);
    InsertedRows(d, ref, xs);
    InsertedRefs(d, ref, xs);
    AscendingFrom(r.nextId, d.nextId, RefersTo(r, ref));
    RowsAtIds(d, ref, xs);
  }

  /** After the insertions the answers of `ref` are exactly the new ids. */
  lemma InsertedRefs(d: Db, ref: Id, xs: seq<IncomingAnswer>)
    requires Valid(d) && ref < d.nextId
    requires forall id :: id in d.answers ==> d.answers[id].submissionRef != ref
    ensures var r := InsertAnswers(d, ref, xs);
      forall x: Id :: x < r.nextId ==> (RefersTo(r, ref)(x) <==> d.nextId <= x)
  {
    var r := InsertAnswers(d, ref, xs);
    InsertAnswersSpec(d, ref, xs);
    InsertedRows(d, ref, xs);
    forall x: Id | x < r.nextId
      ensures RefersTo(r, ref)(x) <==> d.nextId <= x
    {
      if x < d.nextId {
        if x in d.answers {
          assert r.answers[x] == d.answers[x];
        }
      } else {
        assert r.answers[d.nextId + (x - d.nextId)] == RowOf(ref, xs[x - d.nextId]);
      }
    }
  }

  /** When the answers of `ref` after the insertions are the new ids, the `by_submission`
      scan returns the rows of `xs` in order. */
  lemma RowsAtIds(d: Db, ref: Id, xs: seq<IncomingAnswer>)
    requires AnswerIdsOf(InsertAnswers(d, ref, xs), ref) == seq(|xs|, i => d.nextId + i)
    ensures AnswersOf(InsertAnswers(d, ref, xs), ref) == RowsOf(ref, xs)
  {
    var r := InsertAnswers(d, ref, xs);
    var ids := AnswerIdsOf(r, ref);
    InsertedRows(d, ref, xs);
    forall j | 0 <= j < |xs|
      ensures AnswersOf(r, ref)[j] == RowOf(ref, xs[j])
    {
      assert ids[j] == d.nextId + j;
      assert r.answers[d.nextId + j] == RowOf(ref, xs[d.nextId + j - d.nextId]);
    }
  }

  /** Every other submission's answers are left as they were by dropping and inserting. */
  lemma OtherAnswersKept(db: Db, ref: Id, xs: seq<IncomingAnswer>, other: Id)
    requires Valid(db) && ref < db.nextId && other != ref
    ensures AnswersOf(InsertAnswers(DropAnswersOf(db, ref), ref, xs), other) == AnswersOf(db, other)
  {
    var d := DropAnswersOf(db, ref);
    InsertKeepsOthers(d, ref, xs, other);
    forall id: Id
      ensures RefersTo(db, other)(id) <==> RefersTo(d, other)(id)
    {
      if id in db.answers && db.answers[id].submissionRef == other {
        assert id in d.answers;
      }
    }
    AnswersAgree(db, d, other);
  }

  /** Inserting answers of `ref` leaves every other submission's answers as they were. */
  lemma InsertKeepsOthers(d: Db, ref: Id, xs: seq<IncomingAnswer>, other: Id)
    requires Valid(d) && ref < d.nextId && other != ref
    ensures AnswersOf(InsertAnswers(d, ref, xs), other) == AnswersOf(d, other)
  {
    var r := InsertAnswers(d, ref, xs);
    InsertAnswersSpec(d, ref, xs);
    InsertedRows(d, ref, xs);
    forall id: Id
      ensures RefersTo(d, other)(id) <==> RefersTo(r, other)(id)
    {
      if id in r.answers && id !in d.answers {
        assert r.answers[d.nextId + (id - d.nextId)] == RowOf(ref, xs[id - d.nextId]);
      }
    }
    AnswersAgree(d, r, other);
  }

  /** Two valid databases holding the same answer rows for `ref` return the same answers for
      it, whatever else differs. */
  lemma AnswersAgree(a: Db, b: Db, ref: Id)
    requires Valid(a) && Valid(b)
    requires forall id :: RefersTo(a, ref)(id) <==> RefersTo(b, ref)(id)
    requires forall id :: RefersTo(a, ref)(id) ==> a.answers[id] == b.answers[id]
    ensures AnswersOf(a, ref) == AnswersOf(b, ref)
  {
    if a.nextId <= b.nextId {
      AscendingSame(a.nextId, b.nextId, RefersTo(a, ref), RefersTo(b, ref));
    } else {
      AscendingSame(b.nextId, a.nextId, RefersTo(b, ref), RefersTo(a, ref));
    }
    var ids := AnswerIdsOf(a, ref);
    forall i | 0 <= i < |ids|
      ensures AnswersOf(a, ref)[i] == AnswersOf(b, ref)[i]
    {
      assert RefersTo(a, ref)(ids[i]);
    }
  }

  /** Extending the scan range past every id that can satisfy `after`, and `after` agreeing
      with `before` below the old range, gives the same scan. */
  lemma {:induction false} AscendingSame(n: nat, m: nat, before: Id -> bool, after: Id -> bool)
    requires n <= m
    requires forall x: Id :: x < n ==> (before(x) <==> after(x))
    requires forall x: Id :: n <= x < m ==> !after(x)
    ensures Ascending(m, after) == Ascending(n, before)
    decreases m
  {
    if m > n {
      AscendingSame(n, m - 1, before, after);
    } else if n > 0 {
      AscendingSame(n - 1, m - 1, before, after);
    }
  }
}
