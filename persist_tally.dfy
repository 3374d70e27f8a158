/** Writing normalised Tally responses into the Convex tables: each answer is turned into the
    stored shape (one value slot per JSON type), the respondent and analytics-excluded answers
    are dropped, and the whole batch goes to the `syncSubmissions` mutation. */
module PersistTally {
  import opened Wrappers
  import opened JsRuntime
  import opened TallyClient
  import opened TallyAnalytics
  import opened ConvexTables
  import opened ConvexTally

  // ---------------------------------------------------------------- answers

  /** `toStoredAnswer`: nothing for an excluded question, otherwise the question's id, label and
      type with the value in the slot of its JSON type (no slot for `null`). */
  function ToStoredAnswer(a: NormalizedAnswer): Option<IncomingAnswer> {
    if a.key in ExcludedQuestionKeys then None
    else
      var base := IncomingAnswer(a.key, a.questionLabel, a.questionType, None, None, None, None);
      match a.value
      case NullValue => Some(base)
      case Text(s) => Some(base.(valueString := Some(s)))
      case Number(n) => Some(base.(valueNumber := Some(n)))
      case Flag(b) => Some(base.(valueBoolean := Some(b)))
      case TextList(items) => Some(base.(valueList := Some(items)))
  }

  /** At most one value slot of a stored answer is filled. */
  predicate SingleSlot(x: IncomingAnswer) {
    var filled := (if x.valueString.Some? then 1 else 0) + (if x.valueNumber.Some? then 1 else 0)
      + (if x.valueBoolean.Some? then 1 else 0) + (if x.valueList.Some? then 1 else 0);
    filled <= 1
  }

  /** Reading a stored answer back: the value in whichever slot is filled. */
  function StoredValue(x: IncomingAnswer): AnswerValue {
    if x.valueString.Some? then Text(x.valueString.value)
    else if x.valueNumber.Some? then Number(x.valueNumber.value)
    else if x.valueBoolean.Some? then Flag(x.valueBoolean.value)
    else if x.valueList.Some? then TextList(x.valueList.value)
    else NullValue
  }

  /** An answer is dropped exactly when its question is excluded; a kept answer keeps its
      question's id, label and type, fills at most one slot, and reads back as its value. */
  lemma ToStoredSpec(a: NormalizedAnswer)
    ensures ToStoredAnswer(a).None? <==> a.key in ExcludedQuestionKeys
    ensures ToStoredAnswer(a).Some? ==>
      var x := ToStoredAnswer(a).value;
      && x.questionId == a.key && x.questionLabel == a.questionLabel && x.questionType == a.questionType
      && SingleSlot(x) && StoredValue(x) == a.value
  {
  }

  /** How the chat export shows a value: text as is, numbers through `String`, flags as
      `true`/`false`, lists joined with a comma and a space, `null` as nothing. */
  function RenderValue(v: AnswerValue, rt: Runtime): string {
    match v
    case NullValue => ""
    case Text(s) => s
    case Number(n) => rt.numberToString(n)
    case Flag(b) => BoolToString(b)
    case TextList(items) => Join(items, ", ")
  }

  /** The chat export of a stored answer shows the value the answer had before it was stored;
      an empty text, which the export skips over, shows as nothing either way. */
  lemma ChatShowsStoredValue(a: NormalizedAnswer, ref: Id, rt: Runtime)
    requires a.key !in ExcludedQuestionKeys
    ensures ChatValue(RowOf(ref, ToStoredAnswer(a).value), rt) == RenderValue(a.value, rt)
  {
  }

  /** The answers whose questions are not excluded, in order. */
  function Kept(xs: seq<NormalizedAnswer>): seq<NormalizedAnswer> {
    if xs == [] then []
    else if xs[|xs| - 1].key in ExcludedQuestionKeys then Kept(xs[..|xs| - 1])
    else Kept(xs[..|xs| - 1]) + [xs[|xs| - 1]]
  }

  /** `answers.map(toStoredAnswer).filter(Boolean)` */
  function StoredAnswers(xs: seq<NormalizedAnswer>): seq<IncomingAnswer> {
    if xs == [] then []
    else
      var s := ToStoredAnswer(xs[|xs| - 1]);
      if s.None? then StoredAnswers(xs[..|xs| - 1]) else StoredAnswers(xs[..|xs| - 1]) + [s.value]
  }

  /** The stored answers are those of the answers that are kept, one each and in order, so no
      stored answer belongs to an excluded question. */
  lemma {:induction false} StoredAnswersSpec(xs: seq<NormalizedAnswer>)
    ensures |StoredAnswers(xs)| == |Kept(xs)|
    ensures forall i :: 0 <= i < |Kept(xs)| ==> ToStoredAnswer(Kept(xs)[i]) == Some(StoredAnswers(xs)[i])
    ensures forall x :: x in StoredAnswers(xs) ==> x.questionId !in ExcludedQuestionKeys
  {
    if xs != [] {
      var init := xs[..|xs| - 1];
      StoredAnswersSpec(init);
      ToStoredSpec(xs[|xs| - 1]);
    }
  }

  // ---------------------------------------------------------------- submissions

  /** `serializeSubmission`: the submission time is kept when it is set, non-empty and parses as
      a date; a missing completion flag becomes `false`. */
  function SerializeSubmission(resp: NormalizedResponse, rt: Runtime): (r: IncomingSubmission)
    ensures r.submissionId == resp.id
    ensures r.completed.Some? && (r.completed.value <==> resp.completed == Some(true))
    ensures resp.submittedAt.None? || resp.submittedAt == Some("") ==> r.submittedAt.None?
    ensures r.submittedAt.Some? <==>
      resp.submittedAt.Some? && resp.submittedAt.value != "" && rt.parseDate(resp.submittedAt.value).Some?
    ensures r.submittedAt.Some? ==> r.submittedAt == rt.parseDate(resp.submittedAt.value)
    ensures |r.answers| == |Kept(resp.answers)|
    ensures forall i :: 0 <= i < |r.answers| ==> ToStoredAnswer(Kept(resp.answers)[i]) == Some(r.answers[i])
  {
    var submittedAt :=
      if resp.submittedAt.Some? && resp.submittedAt.value != "" then rt.parseDate(resp.submittedAt.value) else None;
    StoredAnswersSpec(resp.answers);
    IncomingSubmission(resp.id, submittedAt, Some(resp.completed.GetOr(false)), StoredAnswers(resp.answers))
  }

  /** `responses.map(serializeSubmission)` */
  function Serialized(responses: seq<NormalizedResponse>, rt: Runtime): (r: seq<IncomingSubmission>)
    ensures |r| == |responses|
    ensures forall k :: 0 <= k < |r| ==> r[k] == SerializeSubmission(responses[k], rt)
  {
    if responses == [] then []
    else Serialized(responses[..|responses| - 1], rt) + [SerializeSubmission(responses[|responses| - 1], rt)]
  }

  /** An incoming submission carries no answer to either respondent question. */
  predicate Anonymous(sub: IncomingSubmission) {
    RespondentField(sub.answers, NameQuestionId).None? && RespondentField(sub.answers, LinkedInQuestionId).None?
  }

  /** The respondent questions are among the excluded ones, so a serialised submission never
      carries a respondent name or LinkedIn profile. */
  lemma SerializedAnonymous(resp: NormalizedResponse, rt: Runtime)
    ensures Anonymous(SerializeSubmission(resp, rt))
  {
    var xs := StoredAnswers(resp.answers);
    StoredAnswersSpec(resp.answers);
    assert NameQuestionId in ExcludedQuestionKeys && LinkedInQuestionId in ExcludedQuestionKeys;
    FindAnswerFirst(xs, NameQuestionId);
    FindAnswerFirst(xs, LinkedInQuestionId);
  }

  /** No stored submission has a respondent name or LinkedIn profile. */
  ghost predicate NoRespondentData(db: Db) {
    forall id :: id in db.submissions ==>
      db.submissions[id].respondentName.None? && db.submissions[id].respondentLinkedIn.None?
  }

  /** Against a database without respondent data, an anonymous submission is never left
      alone: the row is rewritten, and still carries no respondent data. */
  lemma SyncOneNeverSkips(db: Db, formId: string, sub: IncomingSubmission, now: int)
    requires Valid(db) && UniqueKeys(db) && NoRespondentData(db) && Anonymous(sub)
    ensures var (after, r) := SyncOne(db, formId, sub, now);
      r.Success? && r.value != Skipped && NoRespondentData(after)
  {
    SyncOneSucceeds(db, formId, sub, now);
    SyncOneTables(db, formId, sub, now);
  }

  /** The same over a whole batch of anonymous submissions: nothing is counted as skipped. */
  lemma {:induction false} SyncPrefixNeverSkips(db: Db, formId: string, subs: seq<IncomingSubmission>, now: int)
    requires Valid(db) && UniqueKeys(db) && NoRespondentData(db)
    requires forall k :: 0 <= k < |subs| ==> Anonymous(subs[k])
    ensures var (after, c) := SyncPrefix(db, formId, subs, now);
      c.Success? && c.value.skipped == 0 && NoRespondentData(after)
    decreases |subs|
  {
    if subs != [] {
      var init := subs[..|subs| - 1];
      SyncPrefixNeverSkips(db, formId, init, now);
      SyncPrefixKeeps(db, formId, init, now);
      var mid := SyncPrefix(db, formId, init, now).0;
      SyncOneNeverSkips(mid, formId, subs[|subs| - 1], now);
    }
  }

  // ---------------------------------------------------------------- the mutation call

  /** The environment variables `persistTallySubmissions` reads. */
  datatype Env = Env(
    tallyFormId: Option<string>, convexUrl: Option<string>, nextPublicConvexUrl: Option<string>,
    nextPublicConvexDeployment: Option<string>, convexDeployment: Option<string>)

  /** `TALLY_FORM_ID`, or the default form. */
  function FormIdOf(env: Env): string {
    env.tallyFormId.GetOr(DefaultFormId)
  }

  /** The deployment URL variables in the order they are consulted. */
  function UrlVariables(env: Env): seq<Option<string>> {
    [env.convexUrl, env.nextPublicConvexUrl, env.nextPublicConvexDeployment, env.convexDeployment]
  }

  /** The `??` chain over the URL variables: a variable that is set, even to the empty string,
      hides the ones after it. */
  function DeploymentUrl(env: Env): Option<string> {
    env.convexUrl.Or(env.nextPublicConvexUrl).Or(env.nextPublicConvexDeployment).Or(env.convexDeployment)
  }

  /** The first variable of `vs` that is set. */
  ghost predicate FirstSet(vs: seq<Option<string>>, i: int) {
    0 <= i < |vs| && vs[i].Some? && forall j :: 0 <= j < i ==> vs[j].None?
  }

  /** The URL is missing exactly when no variable is set, and otherwise is the value of the
      first variable that is set. */
  lemma DeploymentUrlSpec(env: Env)
    ensures DeploymentUrl(env).None? <==> forall v :: v in UrlVariables(env) ==> v.None?
    ensures DeploymentUrl(env).Some? ==>
      exists i :: FirstSet(UrlVariables(env), i) && UrlVariables(env)[i] == DeploymentUrl(env)
  {
    var vs := UrlVariables(env);
    if vs[0].Some? {
      assert FirstSet(vs, 0);
    } else if vs[1].Some? {
      assert FirstSet(vs, 1);
    } else if vs[2].Some? {
      assert FirstSet(vs, 2);
    } else if vs[3].Some? {
      assert FirstSet(vs, 3);
    }
  }

  /** The outcome of `persistTallySubmissions`: `null`, the mutation's result, or the error it
      rethrows. */
  datatype PersistOutcome = NotPersisted | Persisted(result: SyncResult) | PersistFailed(cause: SyncError)

  /** Whether the call reaches the mutation: there is something to persist and a non-empty
      deployment URL. */
  predicate Reaches(responses: seq<NormalizedResponse>, env: Env) {
    |responses| > 0 && DeploymentUrl(env).Some? && DeploymentUrl(env).value != ""
  }

  /** `persistTallySubmissions` against the database `db` of the deployment. */
  function Persist(db: Db, responses: seq<NormalizedResponse>, env: Env, rt: Runtime, now: int): (Db, PersistOutcome) {
    if !Reaches(responses, env) then (db, NotPersisted)
    else
      var (after, r) := SyncAll(db, FormIdOf(env), Serialized(responses, rt), now);
      if r.Failure? then (after, PersistFailed(r.error)) else (after, Persisted(r.value))
  }

  /** The text before the mutation's own error message in the rethrown error. */
  const FailurePrefix: string := "Failed to persist Tally submissions to Convex: "

  /** The text after it. */
  const FailureSuffix: string :=
    ". Ensure the Convex deployment is running and includes the latest schema (run \"cd packages/backend && npx convex push\")."

  /** The message of the rethrown error. */
  function FailureMessage(message: string): (r: string)
    ensures |r| == |FailurePrefix| + |message| + |FailureSuffix|
    ensures r[..|FailurePrefix|] == FailurePrefix
    ensures r[|FailurePrefix|..|FailurePrefix| + |message|] == message
    ensures r[|FailurePrefix| + |message|..] == FailureSuffix
  {
    FailurePrefix + message + FailureSuffix
  }

  /** Without responses or without a usable URL nothing is written. Otherwise, against a
      consistent database, the mutation succeeds, counts every response once, and leaves a
      document for each response under the configured form. */
  lemma PersistSpec(db: Db, responses: seq<NormalizedResponse>, env: Env, rt: Runtime, now: int)
    requires Valid(db) && UniqueKeys(db)
    ensures var (after, o) := Persist(db, responses, env, rt, now);
      && (o.NotPersisted? <==> !Reaches(responses, env))
      && (o.NotPersisted? ==> after == db)
      && !o.PersistFailed?
      && (o.Persisted? ==>
           && o.result.total == |responses| == o.result.inserted + o.result.updated + o.result.skipped
           && Valid(after) && UniqueKeys(after) && KeysKept(db, after)
           && forall k :: 0 <= k < |responses| ==> Stored(after, FormIdOf(env), responses[k].id))
  {
    if Reaches(responses, env) {
      var subs := Serialized(responses, rt);
      SyncAllSucceeds(db, FormIdOf(env), subs, now);
      forall k | 0 <= k < |responses|
        ensures Stored(SyncAll(db, FormIdOf(env), subs, now).0, FormIdOf(env), responses[k].id)
      {
        assert subs[k].submissionId == responses[k].id;
      }
    }
  }

  /** When every stored row was written through this path, a persist run skips nothing:
      the unchanged-row check needs respondent data that this path never stores. */
  lemma PersistNeverSkips(db: Db, responses: seq<NormalizedResponse>, env: Env, rt: Runtime, now: int)
    requires Valid(db) && UniqueKeys(db) && NoRespondentData(db)
    ensures var (after, o) := Persist(db, responses, env, rt, now);
      && NoRespondentData(after)
      && (o.Persisted? ==> o.result.skipped == 0 && o.result.inserted + o.result.updated == |responses|)
  {
    if Reaches(responses, env) {
      var subs := Serialized(responses, rt);
      forall k | 0 <= k < |subs|
        ensures Anonymous(subs[k])
      {
        SerializedAnonymous(responses[k], rt);
      }
      SyncPrefixNeverSkips(db, FormIdOf(env), subs, now);
      SyncPrefixCounts(db, FormIdOf(env), subs, now);
    }
  }

  /** `persistTallySubmissions` calling the mutation on the deployment's store. */
  method PersistTallySubmissions(store: TallyStore, responses: seq<NormalizedResponse>, env: Env, rt: Runtime, now: int)
    returns (outcome: PersistOutcome)
    modifies store
    ensures (store.State(), outcome) == Persist(old(store.State()), responses, env, rt, now)
  {
    if |responses| == 0 {
      return NotPersisted;
    }
    var url := DeploymentUrl(env);
    if url.None? || url.value == "" {
      return NotPersisted;
    }
    var r := store.SyncSubmissions(FormIdOf(env), Serialized(responses, rt), now);
    if r.Failure? {
      outcome := PersistFailed(r.error);
    } else {
      outcome := Persisted(r.value);
    }
  }
}
