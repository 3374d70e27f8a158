/** The Convex functions over the forms tables: the `syncSubmissions` and `clearAllTallyData`
    mutations and the `getRecentSummaries` and `getAllAnswersForChat` queries. A mutation runs
    as one transaction: when it throws, none of its writes remain. `Date.now()` is the
    parameter `now`. */
module ConvexTally {
  import opened Wrappers
  import opened JsRuntime
  import opened Sorting
  import opened ConvexTables

  const NameQuestionId: string := "Wz0E5Q"
  const LinkedInQuestionId: string := "7xZL1R"
  const DefaultSummaryLimit: nat := 10

  // ---------------------------------------------------------------- syncSubmissions

  /** `answers.find(a => a.questionId === questionId)` */
  function FindAnswer(answers: seq<IncomingAnswer>, questionId: string): Option<IncomingAnswer> {
    if answers == [] then None
    else if answers[0].questionId == questionId then Some(answers[0])
    else FindAnswer(answers[1..], questionId)
  }

  /** `answers[i]` is the first answer with the question id. */
  ghost predicate FirstWithId(answers: seq<IncomingAnswer>, questionId: string, i: int) {
    && 0 <= i < |answers| && answers[i].questionId == questionId
    && forall k :: 0 <= k < i ==> answers[k].questionId != questionId
  }

  /** `find` yields the first answer with the id, and nothing exactly when there is none. */
  lemma {:induction false} FindAnswerFirst(answers: seq<IncomingAnswer>, questionId: string)
    ensures FindAnswer(answers, questionId).None? <==> forall a :: a in answers ==> a.questionId != questionId
    ensures FindAnswer(answers, questionId).Some? ==>
      exists i :: FirstWithId(answers, questionId, i) && answers[i] == FindAnswer(answers, questionId).value
  {
    if answers != [] && answers[0].questionId != questionId {
      var rest := answers[1..];
      FindAnswerFirst(rest, questionId);
      assert answers == [answers[0]] + rest;
      if FindAnswer(rest, questionId).Some? {
        var i :| FirstWithId(rest, questionId, i) && rest[i] == FindAnswer(rest, questionId).value;
        assert FirstWithId(answers, questionId, i + 1);
      }
    } else if answers != [] {
      assert FirstWithId(answers, questionId, 0);
    }
  }

  /** `answers.find(...)?.valueString` */
  function RespondentField(answers: seq<IncomingAnswer>, questionId: string): Option<string> {
    match FindAnswer(answers, questionId)
    case None => None
    case Some(a) => a.valueString
  }

  /** Whether the stored row may be left alone: the same submission time, the same completion
      flag, and a respondent field already recorded. A stored row without a submission time is
      never left alone: the code compares it as `undefined === null`. */
  predicate Unchanged(row: SubmissionRow, submittedAt: Option<int>, completed: bool) {
    && row.submittedAt.Some? && submittedAt == row.submittedAt
    && row.completed == completed
    && (row.respondentName.Some? || row.respondentLinkedIn.Some?)
  }

  /** The document written for an incoming submission. */
  function Payload(formId: string, sub: IncomingSubmission, now: int): SubmissionRow {
    SubmissionRow(formId, sub.submissionId, sub.submittedAt, sub.completed.GetOr(false), now,
      RespondentField(sub.answers, NameQuestionId), RespondentField(sub.answers, LinkedInQuestionId))
  }

  /** The outcome of `.unique()` on the `by_form_submission` scan. */
  datatype Lookup = Absent | Found(id: Id) | Ambiguous

  function LookupRow(db: Db, formId: string, submissionId: string): (l: Lookup)
    ensures l.Found? ==> HasKey(db, formId, submissionId)(l.id)
  {
    var ids := KeyScan(db, formId, submissionId);
    if |ids| == 0 then Absent else if |ids| == 1 then Found(ids[0]) else Ambiguous
  }

  /** `.unique()` finds nothing when no document has the key, the document when exactly
      one has it, and throws when two or more have it. */
  lemma LookupSpec(db: Db, formId: string, submissionId: string)
    requires Valid(db)
    ensures var l := LookupRow(db, formId, submissionId);
      && (l.Absent? <==> forall id :: !HasKey(db, formId, submissionId)(id))
      && (l.Found? ==> forall id :: HasKey(db, formId, submissionId)(id) ==> id == l.id)
      && (l.Ambiguous? <==> exists a, b :: a != b && HasKey(db, formId, submissionId)(a) && HasKey(db, formId, submissionId)(b))
  {
    var ids := KeyScan(db, formId, submissionId);
    AscendingSpec(db.nextId, HasKey(db, formId, submissionId));
    if |ids| >= 2 {
      assert ids[0] != ids[1];
    }
  }

  datatype SyncOutcome = Inserted | Updated | Skipped

  /** `.unique()` throws when two documents share the key. */
  datatype SyncError = DuplicateSubmissionRows(submissionId: string)

  /** `db.patch(id, row)`, then the old answers of `id` deleted and `xs` inserted. */
  function Patched(db: Db, id: Id, row: SubmissionRow, xs: seq<IncomingAnswer>): Db {
    InsertAnswers(DropAnswersOf(db.(submissions := db.submissions[id := row]), id), id, xs)
  }

  /** `db.insert("tallySubmissions", row)` under the next id, then `xs` inserted for it. */
  function Created(db: Db, row: SubmissionRow, xs: seq<IncomingAnswer>): Db {
    InsertAnswers(Db(db.submissions[db.nextId := row], db.answers, db.nextId + 1), db.nextId, xs)
  }

  /** One pass of the loop of `syncSubmissions`. */
  function SyncOne(db: Db, formId: string, sub: IncomingSubmission, now: int): (Db, Result<SyncOutcome, SyncError>) {
    var lookup := LookupRow(db, formId, sub.submissionId);
    if lookup.Ambiguous? then (db, Failure(DuplicateSubmissionRows(sub.submissionId)))
    else if lookup.Found? && Unchanged(db.submissions[lookup.id], sub.submittedAt, sub.completed.GetOr(false)) then
      (db, Success(Skipped))
    else if lookup.Found? then (Patched(db, lookup.id, Payload(formId, sub, now), sub.answers), Success(Updated))
    else (Created(db, Payload(formId, sub, now), sub.answers), Success(Inserted))
  }

  /** Patching a document replaces its row and its answers and keeps the invariant. */
  lemma PatchedSpec(db: Db, id: Id, row: SubmissionRow, xs: seq<IncomingAnswer>)
    requires Valid(db) && id in db.submissions
    ensures var r := Patched(db, id, row, xs);
      && Valid(r) && r.submissions == db.submissions[id := row] && db.nextId <= r.nextId
      && AnswersOf(r, id) == RowsOf(id, xs)
  {
    var patched := db.(submissions := db.submissions[id := row]);
    InsertAnswersSpec(DropAnswersOf(patched, id), id, xs);
    ReplacedAnswers(patched, id, xs);
  }

  /** Patching a document leaves the answers of every other document as they were. */
  lemma PatchedKeepsOthers(db: Db, id: Id, row: SubmissionRow, xs: seq<IncomingAnswer>, other: Id)
    requires Valid(db) && id in db.submissions && other != id
    ensures AnswersOf(Patched(db, id, row, xs), other) == AnswersOf(db, other)
  {
    var patched := db.(submissions := db.submissions[id := row]);
    OtherAnswersKept(patched, id, xs, other);
    AnswersAgree(db, patched, other);
  }

  /** Creating a document adds its row under the next id, with `xs` as its answers. */
  lemma CreatedSpec(db: Db, row: SubmissionRow, xs: seq<IncomingAnswer>)
    requires Valid(db)
    ensures var r := Created(db, row, xs);
      && Valid(r) && r.submissions == db.submissions[db.nextId := row] && db.nextId !in db.submissions
      && db.nextId < r.nextId && AnswersOf(r, db.nextId) == RowsOf(db.nextId, xs)
  {
    var created := Db(db.submissions[db.nextId := row], db.answers, db.nextId + 1);
    InsertAnswersSpec(created, db.nextId, xs);
    CreatedAnswers(db, row, xs);
  }

  lemma CreatedAnswers(db: Db, row: SubmissionRow, xs: seq<IncomingAnswer>)
    requires Valid(db)
    ensures AnswersOf(Created(db, row, xs), db.nextId) == RowsOf(db.nextId, xs)
  {
    var created := Db(db.submissions[db.nextId := row], db.answers, db.nextId + 1);
    InsertedAnswersOf(created, db.nextId, xs);
  }

  /** Creating a document leaves the answers of every existing document as they were. */
  lemma CreatedKeepsOthers(db: Db, row: SubmissionRow, xs: seq<IncomingAnswer>, other: Id)
    requires Valid(db) && other != db.nextId
    ensures AnswersOf(Created(db, row, xs), other) == AnswersOf(db, other)
  {
    var created := Db(db.submissions[db.nextId := row], db.answers, db.nextId + 1);
    InsertKeepsOthers(created, db.nextId, xs, other);
    AnswersAgree(db, created, other);
  }

  datatype SyncCounts = SyncCounts(inserted: nat, updated: nat, skipped: nat)

  function Counted(c: SyncCounts, o: SyncOutcome): SyncCounts {
    match o
    case Inserted => c.(inserted := c.inserted + 1)
    case Updated => c.(updated := c.updated + 1)
    case Skipped => c.(skipped := c.skipped + 1)
  }

  /** The loop run over `subs`, stopping at the first error with the writes made so far. */
  function SyncPrefix(db: Db, formId: string, subs: seq<IncomingSubmission>, now: int): (Db, Result<SyncCounts, SyncError>)
    decreases |subs|
  {
    if subs == [] then (db, Success(SyncCounts(0, 0, 0)))
    else
      var (mid, c) := SyncPrefix(db, formId, subs[..|subs| - 1], now);
      if c.Failure? then (mid, c)
      else
        var (after, o) := SyncOne(mid, formId, subs[|subs| - 1], now);
        if o.Failure? then (after, Failure(o.error)) else (after, Success(Counted(c.value, o.value)))
  }

  datatype SyncResult = SyncResult(total: nat, inserted: nat, updated: nat, skipped: nat)

  /** `syncSubmissions({formId, submissions})`: an error rolls every write back. */
  function SyncAll(db: Db, formId: string, subs: seq<IncomingSubmission>, now: int): (Db, Result<SyncResult, SyncError>) {
    var (after, c) := SyncPrefix(db, formId, subs, now);
    if c.Failure? then (db, Failure(c.error))
    else (after, Success(SyncResult(|subs|, c.value.inserted, c.value.updated, c.value.skipped)))
  }

  /** Every submission is counted once: inserted, updated or skipped. */
  lemma {:induction false} SyncPrefixCounts(db: Db, formId: string, subs: seq<IncomingSubmission>, now: int)
    ensures var c := SyncPrefix(db, formId, subs, now).1;
      c.Success? ==> c.value.inserted + c.value.updated + c.value.skipped == |subs|
    decreases |subs|
  {
    if subs != [] {
      SyncPrefixCounts(db, formId, subs[..|subs| - 1], now);
    }
  }

  lemma SyncCountsAddUp(db: Db, formId: string, subs: seq<IncomingSubmission>, now: int)
    ensures var r := SyncAll(db, formId, subs, now).1;
      r.Success? ==> r.value.total == |subs| == r.value.inserted + r.value.updated + r.value.skipped
  {
    SyncPrefixCounts(db, formId, subs, now);
  }


  /** The submission document a sync writes: the one found under the key, or a new one. */
  function Target(db: Db, formId: string, submissionId: string): Id {
    var l := LookupRow(db, formId, submissionId);
    if l.Found? then l.id else db.nextId
  }

  /** With one document per key, `.unique()` never throws. */
  lemma SyncOneSucceeds(db: Db, formId: string, sub: IncomingSubmission, now: int)
    requires Valid(db) && UniqueKeys(db)
    ensures SyncOne(db, formId, sub, now).1.Success?
  {
    LookupSpec(db, formId, sub.submissionId);
  }

  /** Replacing a row by one with the same key keeps one document per key. */
  lemma UniqueReplaced(db: Db, id: Id, row: SubmissionRow)
    requires UniqueKeys(db) && id in db.submissions
    requires row.formId == db.submissions[id].formId && row.submissionId == db.submissions[id].submissionId
    ensures UniqueKeys(db.(submissions := db.submissions[id := row]))
  {
  }

  /** Adding a row under a new id and an unused key keeps one document per key. */
  lemma UniqueAdded(db: Db, id: Id, row: SubmissionRow)
    requires UniqueKeys(db) && id !in db.submissions
    requires forall x :: !HasKey(db, row.formId, row.submissionId)(x)
    ensures UniqueKeys(db.(submissions := db.submissions[id := row]))
  {
    var m := db.submissions[id := row];
    forall a, b | a in m && b in m && a != b && m[a].formId == m[b].formId
      ensures m[a].submissionId != m[b].submissionId
    {
      if a == id {
        assert !HasKey(db, row.formId, row.submissionId)(b);
      } else if b == id {
        assert !HasKey(db, row.formId, row.submissionId)(a);
      }
    }
  }

  /** A sync keeps ids below the counter and one document per key. */
  lemma SyncOneKeepsInvariants(db: Db, formId: string, sub: IncomingSubmission, now: int)
    requires Valid(db) && UniqueKeys(db)
    ensures var after := SyncOne(db, formId, sub, now).0;
      Valid(after) && UniqueKeys(after) && db.nextId <= after.nextId
  {
    var l := LookupRow(db, formId, sub.submissionId);
    var payload := Payload(formId, sub, now);
    LookupSpec(db, formId, sub.submissionId);
    if l.Found? && !Unchanged(db.submissions[l.id], sub.submittedAt, sub.completed.GetOr(false)) {
      PatchedSpec(db, l.id, payload, sub.answers);
      UniqueReplaced(db, l.id, payload);
    } else if l.Absent? {
      CreatedSpec(db, payload, sub.answers);
      UniqueAdded(db, db.nextId, payload);
    }
  }

  /** What one sync does to the tables: it skips exactly a stored document that is
      `Unchanged`, inserts exactly when no document has the key, and otherwise writes the
      payload to the target document and replaces its answers by the incoming ones, in order. */
  lemma SyncOneTables(db: Db, formId: string, sub: IncomingSubmission, now: int)
    requires Valid(db) && UniqueKeys(db)
    ensures var (after, r) := SyncOne(db, formId, sub, now);
      var t := Target(db, formId, sub.submissionId);
      && (r == Success(Skipped) <==>
           exists id :: HasKey(db, formId, sub.submissionId)(id)
             && Unchanged(db.submissions[id], sub.submittedAt, sub.completed.GetOr(false)))
      && (r == Success(Skipped) ==> after == db)
      && (r == Success(Inserted) <==> forall id :: !HasKey(db, formId, sub.submissionId)(id))
      && (r == Success(Inserted) ==> t == db.nextId && t !in db.submissions)
      && (r != Success(Skipped) ==>
           && after.submissions == db.submissions[t := Payload(formId, sub, now)]
           && AnswersOf(after, t) == RowsOf(t, sub.answers))
  {
    var l := LookupRow(db, formId, sub.submissionId);
    var payload := Payload(formId, sub, now);
    LookupSpec(db, formId, sub.submissionId);
    if l.Found? && !Unchanged(db.submissions[l.id], sub.submittedAt, sub.completed.GetOr(false)) {
      PatchedSpec(db, l.id, payload, sub.answers);
    } else if l.Absent? {
      CreatedSpec(db, payload, sub.answers);
    }
  }

  /** A sync leaves every document with another key, and its answers, as they were. */
  lemma SyncOneKeepsOthers(db: Db, formId: string, sub: IncomingSubmission, now: int, other: Id)
    requires Valid(db)
    requires other in db.submissions && !HasKey(db, formId, sub.submissionId)(other)
    ensures var after := SyncOne(db, formId, sub, now).0;
      && other in after.submissions && after.submissions[other] == db.submissions[other]
      && AnswersOf(after, other) == AnswersOf(db, other)
  {
    var l := LookupRow(db, formId, sub.submissionId);
    var payload := Payload(formId, sub, now);
    if l.Found? && !Unchanged(db.submissions[l.id], sub.submittedAt, sub.completed.GetOr(false)) {
      PatchedSpec(db, l.id, payload, sub.answers);
      PatchedKeepsOthers(db, l.id, payload, sub.answers, other);
    } else if l.Absent? {
      CreatedSpec(db, payload, sub.answers);
      CreatedKeepsOthers(db, payload, sub.answers, other);
    }
  }

  /** Some document of the form has the Tally submission id. */
  ghost predicate Stored(db: Db, formId: string, submissionId: string) {
    exists id :: HasKey(db, formId, submissionId)(id)
  }

  /** Every document of `db` is still in `after`, under the same key. */
  ghost predicate KeysKept(db: Db, after: Db) {
    forall id :: id in db.submissions ==>
      && id in after.submissions
      && after.submissions[id].formId == db.submissions[id].formId
      && after.submissions[id].submissionId == db.submissions[id].submissionId
  }

  /** A sync removes no document and leaves one under the incoming key. */
  lemma SyncOneStores(db: Db, formId: string, sub: IncomingSubmission, now: int)
    requires Valid(db) && UniqueKeys(db)
    ensures var after := SyncOne(db, formId, sub, now).0;
      KeysKept(db, after) && Stored(after, formId, sub.submissionId)
  {
    var t := Target(db, formId, sub.submissionId);
    SyncOneTables(db, formId, sub, now);
    var after := SyncOne(db, formId, sub, now).0;
    if after == db {
      assert HasKey(db, formId, sub.submissionId)(t);
    } else {
      assert HasKey(after, formId, sub.submissionId)(t);
    }
  }

  /** The loop with one document per key runs to the end, keeps the invariants and removes
      no document. */
  lemma {:induction false} SyncPrefixKeeps(db: Db, formId: string, subs: seq<IncomingSubmission>, now: int)
    requires Valid(db) && UniqueKeys(db)
    ensures SyncPrefix(db, formId, subs, now).1.Success?
    ensures var after := SyncPrefix(db, formId, subs, now).0;
      Valid(after) && UniqueKeys(after) && KeysKept(db, after)
    decreases |subs|
  {
    if subs != [] {
      var init := subs[..|subs| - 1];
      var last := subs[|subs| - 1];
      SyncPrefixKeeps(db, formId, init, now);
      var mid := SyncPrefix(db, formId, init, now).0;
      SyncOneSucceeds(mid, formId, last, now);
      SyncOneKeepsInvariants(mid, formId, last, now);
      SyncOneStores(mid, formId, last, now);
      KeysKeptTrans(db, mid, SyncOne(mid, formId, last, now).0);
    }
  }

  lemma KeysKeptTrans(a: Db, b: Db, c: Db)
    requires KeysKept(a, b) && KeysKept(b, c)
    ensures KeysKept(a, c)
  {
  }

  /** After the loop, a document has every incoming key. */
  lemma {:induction false} SyncPrefixStores(db: Db, formId: string, subs: seq<IncomingSubmission>, now: int)
    requires Valid(db) && UniqueKeys(db)
    ensures var after := SyncPrefix(db, formId, subs, now).0;
      forall k :: 0 <= k < |subs| ==> Stored(after, formId, subs[k].submissionId)
    decreases |subs|
  {
    if subs != [] {
      var init := subs[..|subs| - 1];
      SyncPrefixKeeps(db, formId, init, now);
      SyncPrefixStores(db, formId, init, now);
      StoresStep(SyncPrefix(db, formId, init, now).0, formId, init, subs[|subs| - 1], now);
      assert subs == init + [subs[|subs| - 1]];
    }
  }

  /** One more pass keeps every key stored so far and stores its own. */
  lemma StoresStep(mid: Db, formId: string, init: seq<IncomingSubmission>, last: IncomingSubmission, now: int)
    requires Valid(mid) && UniqueKeys(mid)
    requires forall k :: 0 <= k < |init| ==> Stored(mid, formId, init[k].submissionId)
    ensures var after := SyncOne(mid, formId, last, now).0;
      forall k :: 0 <= k < |init| + 1 ==> Stored(after, formId, (init + [last])[k].submissionId)
  {
    SyncOneStores(mid, formId, last, now);
    var after := SyncOne(mid, formId, last, now).0;
    forall k | 0 <= k < |init|
      ensures Stored(after, formId, init[k].submissionId)
    {
      StoredKept(mid, after, formId, init[k].submissionId);
    }
  }

  lemma StoredKept(db: Db, after: Db, formId: string, submissionId: string)
    requires KeysKept(db, after) && Stored(db, formId, submissionId)
    ensures Stored(after, formId, submissionId)
  {
    var id :| HasKey(db, formId, submissionId)(id);
    assert HasKey(after, formId, submissionId)(id);
  }

  /** `syncSubmissions` on a database with one document per key succeeds, counts every
      submission once, keeps the invariants and leaves a document under every incoming key. */
  lemma SyncAllSucceeds(db: Db, formId: string, subs: seq<IncomingSubmission>, now: int)
    requires Valid(db) && UniqueKeys(db)
    ensures var (after, r) := SyncAll(db, formId, subs, now);
      && r.Success? && r.value.total == |subs| == r.value.inserted + r.value.updated + r.value.skipped
      && Valid(after) && UniqueKeys(after) && KeysKept(db, after)
      && forall k :: 0 <= k < |subs| ==> Stored(after, formId, subs[k].submissionId)
  {
    SyncPrefixKeeps(db, formId, subs, now);
    SyncPrefixStores(db, formId, subs, now);
    SyncPrefixCounts(db, formId, subs, now);
  }

  // ---------------------------------------------------------------- running a batch twice

  /** The incoming submission names its respondent in one of the two respondent questions. */
  predicate Identified(sub: IncomingSubmission) {
    RespondentField(sub.answers, NameQuestionId).Some? || RespondentField(sub.answers, LinkedInQuestionId).Some?
  }

  /** The stored document under the submission's key is one a sync of it would leave alone. */
  ghost predicate Current(db: Db, formId: string, sub: IncomingSubmission) {
    exists id :: HasKey(db, formId, sub.submissionId)(id)
      && Unchanged(db.submissions[id], sub.submittedAt, sub.completed.GetOr(false))
  }

  /** A sync of a dated submission that names its respondent leaves a document it would skip. */
  lemma SyncOneCurrent(db: Db, formId: string, sub: IncomingSubmission, now: int)
    requires Valid(db) && UniqueKeys(db)
    requires sub.submittedAt.Some? && Identified(sub)
    ensures Current(SyncOne(db, formId, sub, now).0, formId, sub)
  {
    SyncOneTables(db, formId, sub, now);
    var (after, r) := SyncOne(db, formId, sub, now);
    if r != Success(Skipped) {
      assert HasKey(after, formId, sub.submissionId)(Target(db, formId, sub.submissionId));
    }
  }

  /** A sync under another key leaves a document that would be skipped as it was. */
  lemma CurrentKept(db: Db, formId: string, sub: IncomingSubmission, now: int, prev: IncomingSubmission)
    requires Valid(db) && Current(db, formId, prev) && prev.submissionId != sub.submissionId
    ensures Current(SyncOne(db, formId, sub, now).0, formId, prev)
  {
    var id :| HasKey(db, formId, prev.submissionId)(id)
      && Unchanged(db.submissions[id], prev.submittedAt, prev.completed.GetOr(false));
    SyncOneKeepsOthers(db, formId, sub, now, id);
    assert HasKey(SyncOne(db, formId, sub, now).0, formId, prev.submissionId)(id);
  }

  /** No two submissions of the batch share a Tally submission id. */
  predicate DistinctIds(subs: seq<IncomingSubmission>) {
    forall a, b :: 0 <= a < b < |subs| ==> subs[a].submissionId != subs[b].submissionId
  }

  /** With one document per key, the batch's tables are those of its last pass. */
  lemma SyncPrefixLast(db: Db, formId: string, subs: seq<IncomingSubmission>, now: int)
    requires Valid(db) && UniqueKeys(db) && subs != []
    ensures var mid := SyncPrefix(db, formId, subs[..|subs| - 1], now).0;
      SyncPrefix(db, formId, subs, now).0 == SyncOne(mid, formId, subs[|subs| - 1], now).0
  {
    var init := subs[..|subs| - 1];
    SyncPrefixKeeps(db, formId, init, now);
    SyncOneSucceeds(SyncPrefix(db, formId, init, now).0, formId, subs[|subs| - 1], now);
  }

  /** After a batch of distinct, dated submissions that name their respondents, every one of
      them is stored as a sync would leave it alone. */
  lemma {:induction false} SyncPrefixCurrent(db: Db, formId: string, subs: seq<IncomingSubmission>, now: int)
    requires Valid(db) && UniqueKeys(db) && DistinctIds(subs)
    requires forall k :: 0 <= k < |subs| ==> subs[k].submittedAt.Some? && Identified(subs[k])
    ensures forall k :: 0 <= k < |subs| ==> Current(SyncPrefix(db, formId, subs, now).0, formId, subs[k])
    decreases |subs|
  {
    if subs != [] {
      var init, last := subs[..|subs| - 1], subs[|subs| - 1];
      assert DistinctIds(init);
      SyncPrefixCurrent(db, formId, init, now);
      var mid := SyncPrefix(db, formId, init, now).0;
      SyncPrefixLast(db, formId, subs, now);
      var after := SyncOne(mid, formId, last, now).0;
      SyncPrefixKeeps(db, formId, init, now);
      SyncOneCurrent(mid, formId, last, now);
      forall k | 0 <= k < |init|
        ensures Current(after, formId, subs[k])
      {
        assert init[k] == subs[k];
        CurrentKept(mid, formId, last, now, init[k]);
      }
    }
  }

  /** A batch all of whose submissions are stored as a sync would leave them is skipped
      whole, and nothing is written. */
  lemma {:induction false} SyncPrefixSkipsAll(db: Db, formId: string, subs: seq<IncomingSubmission>, now: int)
    requires Valid(db) && UniqueKeys(db)
    requires forall k :: 0 <= k < |subs| ==> Current(db, formId, subs[k])
    ensures SyncPrefix(db, formId, subs, now) == (db, Success(SyncCounts(0, 0, |subs|)))
    decreases |subs|
  {
    if subs != [] {
      SyncPrefixSkipsAll(db, formId, subs[..|subs| - 1], now);
      SyncOneTables(db, formId, subs[|subs| - 1], now);
    }
  }

  /** Syncing the same batch again, once its submissions carry submission times and
      respondent answers and have distinct ids, skips every one of them and writes nothing. */
  lemma ResyncSkipsAll(db: Db, formId: string, subs: seq<IncomingSubmission>, now: int, later: int)
    requires Valid(db) && UniqueKeys(db) && DistinctIds(subs)
    requires forall k :: 0 <= k < |subs| ==> subs[k].submittedAt.Some? && Identified(subs[k])
    ensures var after := SyncAll(db, formId, subs, now).0;
      SyncAll(after, formId, subs, later) == (after, Success(SyncResult(|subs|, 0, 0, |subs|)))
  {
    SyncPrefixKeeps(db, formId, subs, now);
    SyncPrefixCurrent(db, formId, subs, now);
    SyncPrefixSkipsAll(SyncPrefix(db, formId, subs, now).0, formId, subs, later);
  }

  /** Once the loop has thrown, the rest of the submissions change nothing. */
  lemma {:induction false} SyncPrefixStops(db: Db, formId: string, subs: seq<IncomingSubmission>, k: nat, now: int)
    requires k <= |subs| && SyncPrefix(db, formId, subs[..k], now).1.Failure?
    ensures SyncPrefix(db, formId, subs, now) == SyncPrefix(db, formId, subs[..k], now)
    decreases |subs|
  {
    if k < |subs| {
      var init := subs[..|subs| - 1];
      assert init[..k] == subs[..k];
      SyncPrefixStops(db, formId, init, k, now);
    } else {
      assert subs[..k] == subs;
    }
  }

  // ---------------------------------------------------------------- clearAllTallyData

  datatype ClearResult = ClearResult(deletedSubmissions: nat, deletedAnswers: nat)

  /** The answer documents of the submission documents in `ids`. */
  ghost function AnswersUnder(db: Db, ids: seq<Id>): set<Id> {
    set id | id in db.answers && db.answers[id].submissionRef in ids
  }

  /** One pass of the loop: the document's answers deleted, then the document. */
  function ClearOne(db: Db, id: Id): Db {
    DropAnswersOf(db, id).(submissions := db.submissions - {id})
  }

  /** The loop of `clearAllTallyData` over the documents `ids`. */
  function ClearPrefix(db: Db, ids: seq<Id>): (Db, ClearResult)
    decreases |ids|
  {
    if ids == [] then (db, ClearResult(0, 0))
    else
      var (mid, c) := ClearPrefix(db, ids[..|ids| - 1]);
      var id := ids[|ids| - 1];
      (ClearOne(mid, id), ClearResult(c.deletedSubmissions + 1, c.deletedAnswers + |AnswerIdsOf(mid, id)|))
  }

  /** `clearAllTallyData({formId})`, over the `by_form_synced` scan in ascending order. */
  function Cleared(db: Db, formId: string): (Db, ClearResult) {
    ClearPrefix(db, OldestFirst(db, formId))
  }

  /** Clearing a form deletes exactly its submission documents and their answers, leaves
      every other document as it was, and reports how many of each it deleted. */
  lemma ClearedSpec(db: Db, formId: string)
    requires Valid(db)
    ensures var (r, c) := Cleared(db, formId);
      && (forall id :: id in r.submissions <==> id in db.submissions && db.submissions[id].formId != formId)
      && (forall id :: id in r.submissions ==> r.submissions[id] == db.submissions[id])
      && (forall id :: id in r.answers <==> id in db.answers && !InForm(db, formId)(db.answers[id].submissionRef))
      && (forall id :: id in r.answers ==> r.answers[id] == db.answers[id])
      && c.deletedSubmissions + |r.submissions| == |db.submissions|
      && c.deletedAnswers + |r.answers| == |db.answers|
  {
    var ids := OldestFirst(db, formId);
    OldestFirstSpec(db, formId);
    ClearPrefixSpec(db, ids);
    DistinctCard(ids);
    MinusCard(db.submissions, Elements(ids));
    MinusCard(db.answers, AnswersUnder(db, ids));
  }

  /** Removing keys a map has shrinks it by their number. */
  lemma MinusCard<V>(m: map<Id, V>, a: set<Id>)
    requires a <= m.Keys
    ensures |m - a| + |a| == |m|
  {
    assert (m - a).Keys == m.Keys - a;
    assert m.Keys == (m.Keys - a) + a;
    DisjointCard(m.Keys - a, a);
  }

  /** Clearing the documents `ids` removes exactly them and their answers, and counts both. */
  lemma {:induction false} ClearPrefixSpec(db: Db, ids: seq<Id>)
    requires Valid(db) && Distinct(ids)
    ensures var (r, c) := ClearPrefix(db, ids);
      && r.nextId == db.nextId
      && r.submissions == db.submissions - Elements(ids)
      && r.answers == db.answers - AnswersUnder(db, ids)
      && c.deletedSubmissions == |ids|
      && c.deletedAnswers == |AnswersUnder(db, ids)|
    decreases |ids|
  {
    if ids != [] {
      var init := ids[..|ids| - 1];
      ClearPrefixSpec(db, init);
      ClearPrefixStep(db, ids);
    }
  }

  /** The step of the induction: clearing one more document. */
  lemma ClearPrefixStep(db: Db, ids: seq<Id>)
    requires Valid(db) && Distinct(ids) && ids != []
    requires var (mid, c) := ClearPrefix(db, ids[..|ids| - 1]);
      && mid.nextId == db.nextId
      && mid.submissions == db.submissions - Elements(ids[..|ids| - 1])
      && mid.answers == db.answers - AnswersUnder(db, ids[..|ids| - 1])
      && c.deletedSubmissions == |ids| - 1
      && c.deletedAnswers == |AnswersUnder(db, ids[..|ids| - 1])|
    ensures var (r, c) := ClearPrefix(db, ids);
      && r.nextId == db.nextId
      && r.submissions == db.submissions - Elements(ids)
      && r.answers == db.answers - AnswersUnder(db, ids)
      && c.deletedSubmissions == |ids|
      && c.deletedAnswers == |AnswersUnder(db, ids)|
  {
    var init := ids[..|ids| - 1];
    var x := ids[|ids| - 1];
    var mid := ClearPrefix(db, init).0;
    assert x !in init;
    ClearStep(db, init, x, mid);
    UnderLast(db, ids);
    MinusTwice(db.submissions, Elements(init), {x});
    MinusTwice(db.answers, AnswersUnder(db, init), AnswersUnder(db, [x]));
    DisjointCard(AnswersUnder(db, init), AnswersUnder(db, [x]));
  }

  lemma MinusTwice<V>(m: map<Id, V>, a: set<Id>, b: set<Id>)
    ensures (m - a) - b == m - (a + b)
  {
  }

  lemma DisjointCard(a: set<Id>, b: set<Id>)
    requires a !! b
    ensures |a + b| == |a| + |b|
  {
    assert a * b == {};
  }

  /** The answers of a document not yet cleared are all still there. */
  lemma ClearStep(db: Db, init: seq<Id>, x: Id, mid: Db)
    requires Valid(db) && x !in init
    requires mid.nextId == db.nextId && mid.answers == db.answers - AnswersUnder(db, init)
    ensures Elements(AnswerIdsOf(mid, x)) == AnswersUnder(db, [x])
    ensures |AnswerIdsOf(mid, x)| == |AnswersUnder(db, [x])|
  {
    var ids := AnswerIdsOf(mid, x);
    AscendingSpec(mid.nextId, RefersTo(mid, x));
    forall y ensures y in ids <==> y in AnswersUnder(db, [x]) {
      if y in db.answers && db.answers[y].submissionRef == x {
        assert y !in AnswersUnder(db, init);
      }
    }
    assert Distinct(ids);
    DistinctCard(ids);
  }

  /** The answers under the documents are those under all but the last plus the last's own,
      and the two parts are disjoint when the last is not repeated. */
  lemma UnderLast(db: Db, ids: seq<Id>)
    requires ids != [] && ids[|ids| - 1] !in ids[..|ids| - 1]
    ensures var init, x := ids[..|ids| - 1], ids[|ids| - 1];
      && AnswersUnder(db, ids) == AnswersUnder(db, init) + AnswersUnder(db, [x])
      && AnswersUnder(db, init) !! AnswersUnder(db, [x])
      && Elements(ids) == Elements(init) + {x}
  {
    var init, x := ids[..|ids| - 1], ids[|ids| - 1];
    assert ids == init + [x];
  }

  // ---------------------------------------------------------------- getRecentSummaries

  /** A submission document with its answers. */
  datatype Summary = Summary(submission: SubmissionRow, answers: seq<AnswerRow>)

  /** Each listed document with the answers the `by_submission` scan returns for it. */
  function SummariesOf(db: Db, ids: seq<Id>): (r: seq<Summary>)
    requires forall i :: 0 <= i < |ids| ==> ids[i] in db.submissions
    ensures |r| == |ids|
    ensures forall i :: 0 <= i < |ids| ==> r[i] == Summary(db.submissions[ids[i]], AnswersOf(db, ids[i]))
    decreases |ids|
  {
    if ids == [] then []
    else
      var id := ids[|ids| - 1];
      SummariesOf(db, ids[..|ids| - 1]) + [Summary(db.submissions[id], AnswersOf(db, id))]
  }

  /** `.order("desc").take(limit ?? 10)` on the `by_form_synced` scan. */
  function RecentIds(db: Db, formId: string, limit: Option<nat>): (r: seq<Id>)
    ensures forall i :: 0 <= i < |r| ==> r[i] in db.submissions
  {
    var all := NewestFirst(db, formId);
    var r := Take(all, limit.GetOr(DefaultSummaryLimit));
    assert forall i :: 0 <= i < |r| ==> r[i] == all[i];
    r
  }

  /** `getRecentSummaries({formId, limit})` */
  function RecentSummaries(db: Db, formId: string, limit: Option<nat>): seq<Summary> {
    SummariesOf(db, RecentIds(db, formId, limit))
  }

  /** The summaries are of at most `limit` (by default 10) documents of the form, each once:
      all of them when there are fewer. */
  lemma RecentIdsMembers(db: Db, formId: string, limit: Option<nat>)
    requires Valid(db)
    ensures var ids, n := RecentIds(db, formId, limit), limit.GetOr(DefaultSummaryLimit);
      && |ids| <= n && Distinct(ids)
      && (forall id :: id in ids ==> id in db.submissions && db.submissions[id].formId == formId)
      && (|ids| < n ==> forall id :: id in db.submissions && db.submissions[id].formId == formId ==> id in ids)
  {
    var all := NewestFirst(db, formId);
    var ids := RecentIds(db, formId, limit);
    NewestFirstSpec(db, formId);
    NewestFirstDistinct(db, formId);
    assert forall i :: 0 <= i < |ids| ==> ids[i] == all[i];
    if |ids| < limit.GetOr(DefaultSummaryLimit) {
      assert ids == all;
    }
  }

  /** The summaries are newest first. */
  lemma RecentIdsNewest(db: Db, formId: string, limit: Option<nat>)
    requires Valid(db)
    ensures var ids := RecentIds(db, formId, limit);
      forall i, j :: 0 <= i < j < |ids| ==> db.submissions[ids[i]].syncedAt >= db.submissions[ids[j]].syncedAt
  {
    var all := NewestFirst(db, formId);
    var ids := RecentIds(db, formId, limit);
    NewestFirstSpec(db, formId);
    forall i, j | 0 <= i < j < |ids|
      ensures db.submissions[ids[i]].syncedAt >= db.submissions[ids[j]].syncedAt
    {
      assert ids[i] == all[i] && ids[j] == all[j];
      assert NewerFirst(db)(all[i], all[j]);
    }
  }

  /** No document of the form left out of the summaries was synced later than one listed. */
  lemma RecentIdsTop(db: Db, formId: string, limit: Option<nat>)
    requires Valid(db)
    ensures var ids := RecentIds(db, formId, limit);
      forall id, j :: id in db.submissions && db.submissions[id].formId == formId && id !in ids && 0 <= j < |ids| ==>
        db.submissions[ids[j]].syncedAt >= db.submissions[id].syncedAt
  {
    var all := NewestFirst(db, formId);
    var ids := RecentIds(db, formId, limit);
    NewestFirstSpec(db, formId);
    forall id, j | id in db.submissions && db.submissions[id].formId == formId && id !in ids && 0 <= j < |ids|
      ensures db.submissions[ids[j]].syncedAt >= db.submissions[id].syncedAt
    {
      var p :| 0 <= p < |all| && all[p] == id;
      assert ids[j] == all[j];
      assert p >= |ids|;
      assert NewerFirst(db)(all[j], all[p]);
    }
  }

  // ---------------------------------------------------------------- getAllAnswersForChat

  /** The answer's value as text: a non-empty `valueString`, else the number, else the flag,
      else the list joined with commas, else the empty string. */
  function ChatValue(a: AnswerRow, rt: Runtime): string {
    if a.valueString.Some? && a.valueString.value != "" then a.valueString.value
    else if a.valueNumber.Some? then rt.numberToString(a.valueNumber.value)
    else if a.valueBoolean.Some? then BoolToString(a.valueBoolean.value)
    else if a.valueList.Some? then Join(a.valueList.value, ", ")
    else ""
  }

  /** An entry of the chat export. */
  datatype ChatAnswer = ChatAnswer(
    question: string, answer: string, questionType: string, submissionId: string,
    respondentName: Option<string>, respondentLinkedIn: Option<string>)

  /** The entries for one submission document, one per answer, in order. */
  function ChatEntries(row: SubmissionRow, answers: seq<AnswerRow>, rt: Runtime): (r: seq<ChatAnswer>)
    ensures |r| == |answers|
    ensures forall i :: 0 <= i < |answers| ==> r[i] == ChatAnswer(answers[i].questionLabel,
      ChatValue(answers[i], rt), answers[i].questionType, row.submissionId, row.respondentName, row.respondentLinkedIn)
    decreases |answers|
  {
    if answers == [] then []
    else
      var a := answers[|answers| - 1];
      ChatEntries(row, answers[..|answers| - 1], rt)
        + [ChatAnswer(a.questionLabel, ChatValue(a, rt), a.questionType, row.submissionId, row.respondentName, row.respondentLinkedIn)]
  }

  /** The entries of the listed documents, document by document. */
  function ChatFrom(db: Db, ids: seq<Id>, rt: Runtime): seq<ChatAnswer>
    requires forall i :: 0 <= i < |ids| ==> ids[i] in db.submissions
    decreases |ids|
  {
    if ids == [] then []
    else
      var id := ids[|ids| - 1];
      ChatFrom(db, ids[..|ids| - 1], rt) + ChatEntries(db.submissions[id], AnswersOf(db, id), rt)
  }

  /** `getAllAnswersForChat({formId})`: the documents newest first. */
  function ChatAnswers(db: Db, formId: string, rt: Runtime): seq<ChatAnswer> {
    var ids := NewestFirst(db, formId);
    assert forall i :: 0 <= i < |ids| ==> ids[i] in ids;
    ChatFrom(db, ids, rt)
  }

  /** The `by_submission` scan of a document lists each of its answers once. */
  lemma AnswerIdsCount(db: Db, x: Id)
    requires Valid(db)
    ensures |AnswerIdsOf(db, x)| == |AnswersUnder(db, [x])|
  {
    var ids := AnswerIdsOf(db, x);
    AscendingSpec(db.nextId, RefersTo(db, x));
    assert Elements(ids) == AnswersUnder(db, [x]);
    assert Distinct(ids);
    DistinctCard(ids);
  }

  /** The export of distinct documents has one entry per answer of theirs. */
  lemma {:induction false} ChatFromCount(db: Db, ids: seq<Id>, rt: Runtime)
    requires Valid(db) && Distinct(ids) && forall i :: 0 <= i < |ids| ==> ids[i] in db.submissions
    ensures |ChatFrom(db, ids, rt)| == |AnswersUnder(db, ids)|
    decreases |ids|
  {
    if ids != [] {
      var x := ids[|ids| - 1];
      ChatFromCount(db, ids[..|ids| - 1], rt);
      AnswerIdsCount(db, x);
      assert x !in ids[..|ids| - 1];
      UnderLast(db, ids);
      DisjointCard(AnswersUnder(db, ids[..|ids| - 1]), AnswersUnder(db, [x]));
    }
  }

  /** The chat export of a form has exactly one entry per answer that clearing the form
      deletes. */
  lemma ChatAnswersCount(db: Db, formId: string, rt: Runtime)
    requires Valid(db)
    ensures |ChatAnswers(db, formId, rt)| == Cleared(db, formId).1.deletedAnswers
  {
    var newest := NewestFirst(db, formId);
    var oldest := OldestFirst(db, formId);
    NewestFirstSpec(db, formId);
    NewestFirstDistinct(db, formId);
    OldestFirstSpec(db, formId);
    ChatFromCount(db, newest, rt);
    ClearPrefixSpec(db, oldest);
    UnderSame(db, newest, oldest);
  }

  lemma UnderSame(db: Db, a: seq<Id>, b: seq<Id>)
    requires forall x :: x in a <==> x in b
    ensures AnswersUnder(db, a) == AnswersUnder(db, b)
  {
  }

  /** One more pass of the sync loop, for the method that runs it. */
  lemma SyncPrefixNext(db: Db, formId: string, subs: seq<IncomingSubmission>, i: nat, now: int,
                       mid: Db, c: SyncCounts, after: Db, o: Result<SyncOutcome, SyncError>)
    requires i < |subs| && SyncPrefix(db, formId, subs[..i], now) == (mid, Success(c))
    requires (after, o) == SyncOne(mid, formId, subs[i], now)
    ensures o.Success? ==> SyncPrefix(db, formId, subs[..i + 1], now) == (after, Success(Counted(c, o.value)))
    ensures o.Failure? ==> SyncPrefix(db, formId, subs[..i + 1], now).1 == Failure(o.error)
  {
    assert subs[..i + 1][..i] == subs[..i];
  }

  /** One more pass of the clearing loop, for the method that runs it. */
  lemma ClearPrefixNext(db: Db, ids: seq<Id>, i: nat, mid: Db, answerIds: seq<Id>, after: Db, c: ClearResult)
    requires i < |ids| && c.deletedSubmissions >= 1 && c.deletedAnswers >= |answerIds|
    requires ClearPrefix(db, ids[..i]) == (mid, ClearResult(c.deletedSubmissions - 1, c.deletedAnswers - |answerIds|))
    requires answerIds == AnswerIdsOf(mid, ids[i])
    requires after == mid.(answers := mid.answers - Elements(answerIds), submissions := mid.submissions - {ids[i]})
    ensures ClearPrefix(db, ids[..i + 1]) == (after, c)
  {
    assert ids[..i + 1][..i] == ids[..i];
  }

  // ---------------------------------------------------------------- the handlers

  /** The deployment's two tables, written by the handlers in place. */
  class TallyStore {
    var submissions: map<Id, SubmissionRow>
    var answers: map<Id, AnswerRow>
    var nextId: Id

    function State(): Db
      reads this
    {
      Db(submissions, answers, nextId)
    }

    constructor()
      ensures State() == EmptyDb
    {
      submissions, answers, nextId := map[], map[], 0;
    }

    /** `Promise.all(ids.map(id => ctx.db.delete(id)))`, one deletion after another. */
    method DeleteAnswerRows(ids: seq<Id>)
      modifies this
      ensures State() == old(State()).(answers := old(answers) - Elements(ids))
    {
      var i := 0;
      while i < |ids|
        invariant 0 <= i <= |ids|
        invariant State() == old(State()).(answers := old(answers) - Elements(ids[..i]))
      {
        answers := answers - {ids[i]};
        assert Elements(ids[..i + 1]) == Elements(ids[..i]) + {ids[i]};
        MinusTwice(old(answers), Elements(ids[..i]), {ids[i]});
        i := i + 1;
      }
      assert ids[..i] == ids;
    }

    /** The `for` loop inserting the incoming answers of document `ref`. */
    method InsertAnswerRows(ref: Id, xs: seq<IncomingAnswer>)
      modifies this
      ensures State() == InsertAnswers(old(State()), ref, xs)
    {
      for i := 0 to |xs|
        invariant State() == InsertAnswers(old(State()), ref, xs[..i])
      {
        answers := answers[nextId := RowOf(ref, xs[i])];
        nextId := nextId + 1;
        assert xs[..i + 1][..i] == xs[..i];
      }
      assert xs[..|xs|] == xs;
    }

    /** The body of the loop of `syncSubmissions` for one submission. */
    method SyncSubmission(formId: string, sub: IncomingSubmission, now: int) returns (r: Result<SyncOutcome, SyncError>)
      modifies this
      ensures (State(), r) == SyncOne(old(State()), formId, sub, now)
    {
      var existing := LookupRow(State(), formId, sub.submissionId);
      if existing.Ambiguous? {
        return Failure(DuplicateSubmissionRows(sub.submissionId));
      }
      var submittedAt := sub.submittedAt;
      var completed := sub.completed.GetOr(false);
      var respondentName := RespondentField(sub.answers, NameQuestionId);
      var respondentLinkedIn := RespondentField(sub.answers, LinkedInQuestionId);
      if existing.Found? && Unchanged(submissions[existing.id], submittedAt, completed) {
        return Success(Skipped);
      }
      var payload := SubmissionRow(formId, sub.submissionId, submittedAt, completed, now, respondentName, respondentLinkedIn);
      var target: Id;
      if existing.Found? {
        target := existing.id;
        submissions := submissions[target := payload];
        r := Success(Updated);
        var existingAnswers := AnswerIdsOf(State(), target);
        DeleteAnswerRows(existingAnswers);
      } else {
        target := nextId;
        submissions := submissions[target := payload];
        nextId := nextId + 1;
        r := Success(Inserted);
      }
      InsertAnswerRows(target, sub.answers);
    }

    /** `syncSubmissions({formId, submissions})`; a throw aborts the transaction, so the tables
        go back to what they were. */
    method SyncSubmissions(formId: string, subs: seq<IncomingSubmission>, now: int) returns (r: Result<SyncResult, SyncError>)
      modifies this
      ensures (State(), r) == SyncAll(old(State()), formId, subs, now)
    {
      var snapshot := State();
      var upserts: nat, inserts: nat, skipped: nat := 0, 0, 0;
      var i := 0;
      while i < |subs|
        invariant 0 <= i <= |subs|
        invariant SyncPrefix(snapshot, formId, subs[..i], now) == (State(), Success(SyncCounts(inserts, upserts, skipped)))
      {
        ghost var mid := State();
        ghost var counts := SyncCounts(inserts, upserts, skipped);
        var outcome := SyncSubmission(formId, subs[i], now);
        SyncPrefixNext(snapshot, formId, subs, i, now, mid, counts, State(), outcome);
        if outcome.Failure? {
          SyncPrefixStops(snapshot, formId, subs, i + 1, now);
          submissions, answers, nextId := snapshot.submissions, snapshot.answers, snapshot.nextId;
          return Failure(outcome.error);
        }
        match outcome.value {
          case Inserted => inserts := inserts + 1;
          case Updated => upserts := upserts + 1;
          case Skipped => skipped := skipped + 1;
        }
        assert SyncCounts(inserts, upserts, skipped) == Counted(counts, outcome.value);
        i := i + 1;
      }
      assert subs[..i] == subs;
      r := Success(SyncResult(|subs|, inserts, upserts, skipped));
    }

    /** `clearAllTallyData({formId})` */
    method ClearAllTallyData(formId: string) returns (result: ClearResult)
      modifies this
      ensures (State(), result) == Cleared(old(State()), formId)
    {
      var ids := OldestFirst(State(), formId);
      result := ClearSubmissions(ids);
    }

    /** The loop of `clearAllTallyData` over the scanned documents. */
    method ClearSubmissions(ids: seq<Id>) returns (result: ClearResult)
      modifies this
      ensures (State(), result) == ClearPrefix(old(State()), ids)
    {
      var deletedAnswers: nat, deletedSubmissions: nat := 0, 0;
      for i := 0 to |ids|
        invariant ClearPrefix(old(State()), ids[..i]) == (State(), ClearResult(deletedSubmissions, deletedAnswers))
      {
        ghost var mid := State();
        var answerIds := AnswerIdsOf(State(), ids[i]);
        DeleteAnswerRows(answerIds);
        deletedAnswers := deletedAnswers + |answerIds|;
        submissions := submissions - {ids[i]};
        deletedSubmissions := deletedSubmissions + 1;
        ClearPrefixNext(old(State()), ids, i, mid, answerIds, State(), ClearResult(deletedSubmissions, deletedAnswers));
      }
      assert ids[..|ids|] == ids;
      result := ClearResult(deletedSubmissions, deletedAnswers);
    }

    /** `getRecentSummaries({formId, limit})` */
    method GetRecentSummaries(formId: string, limit: Option<nat>) returns (results: seq<Summary>)
      ensures results == RecentSummaries(State(), formId, limit)
    {
      var db := State();
      var ids := RecentIds(db, formId, limit);
      results := Summarize(db, ids);
    }

    /** `getAllAnswersForChat({formId})` */
    method GetAllAnswersForChat(formId: string, rt: Runtime) returns (formatted: seq<ChatAnswer>)
      ensures formatted == ChatAnswers(State(), formId, rt)
    {
      var db := State();
      var ids := NewestFirst(db, formId);
      formatted := FormatSubmissions(db, ids, rt);
    }
  }

  /** The loop of `getRecentSummaries` over the scanned documents. */
  method Summarize(db: Db, ids: seq<Id>) returns (results: seq<Summary>)
    requires forall i :: 0 <= i < |ids| ==> ids[i] in db.submissions
    ensures results == SummariesOf(db, ids)
  {
    results := [];
    for i := 0 to |ids|
      invariant results == SummariesOf(db, ids[..i])
    {
      var rows := AnswersOf(db, ids[i]);
      results := results + [Summary(db.submissions[ids[i]], rows)];
      assert ids[..i + 1][..i] == ids[..i];
    }
    assert ids[..|ids|] == ids;
  }

  /** The outer loop of `getAllAnswersForChat` over the scanned documents. */
  method FormatSubmissions(db: Db, ids: seq<Id>, rt: Runtime) returns (formatted: seq<ChatAnswer>)
    requires forall i :: 0 <= i < |ids| ==> ids[i] in db.submissions
    ensures formatted == ChatFrom(db, ids, rt)
  {
    formatted := [];
    for i := 0 to |ids|
      invariant formatted == ChatFrom(db, ids[..i], rt)
    {
      var entries := FormatAnswers(db.submissions[ids[i]], AnswersOf(db, ids[i]), rt);
      formatted := formatted + entries;
      assert ids[..i + 1][..i] == ids[..i];
    }
    assert ids[..|ids|] == ids;
  }

  /** The inner loop of `getAllAnswersForChat`: one entry per answer of the document. */
  method FormatAnswers(row: SubmissionRow, rows: seq<AnswerRow>, rt: Runtime) returns (entries: seq<ChatAnswer>)
    ensures entries == ChatEntries(row, rows, rt)
  {
    entries := [];
    for j := 0 to |rows|
      invariant entries == ChatEntries(row, rows[..j], rt)
    {
      var a := rows[j];
      var value := "";
      if a.valueString.Some? && a.valueString.value != "" {
        value := a.valueString.value;
      } else if a.valueNumber.Some? {
        value := rt.numberToString(a.valueNumber.value);
      } else if a.valueBoolean.Some? {
        value := BoolToString(a.valueBoolean.value);
      } else if a.valueList.Some? {
        value := Join(a.valueList.value, ", ");
      }
      entries := entries + [ChatAnswer(a.questionLabel, value, a.questionType, row.submissionId, row.respondentName, row.respondentLinkedIn)];
      assert rows[..j + 1][..j] == rows[..j];
    }
    assert rows[..|rows|] == rows;
  }
}
