/**
 * The analyze-image edge function: one HTTP handler that authenticates the
 * caller, reads the uploaded file, stores it, forwards it to the inference
 * backend, records the analysis and answers. Every collaborator is an outcome
 * handed in through `Env`; the handler records each call it makes in a trace.
 */
module AnalyzeImage {
  import opened Common
  import opened Text

  /** The message for every non-ok reply from the inference backend. */
  const AnalysisFailedMessage: string := "Analysis API request failed."

  /** What the JavaScript engine says when `user.id` is read from a null user. */
  const NullUserMessage: string := "Cannot read properties of null (reading 'id')"

  /** What the JavaScript engine says when `file.name` is read from a missing form field. */
  const NullFileMessage: string := "Cannot read properties of null (reading 'name')"

  /** The "file" entry of the submitted form: missing, a file, or a plain text value. */
  datatype FormField = Absent | FileField(name: string, content: seq<bv8>) | TextField(value: string)

  /** The outcome of the user lookup: a user, no user and no error, or an error. */
  datatype UserLookup = SignedIn(id: string) | NoUser | LookupFailed(message: string)

  /** The outcome of reading the request body as form data. */
  datatype FormRead = FormParsed(file: FormField) | FormFailed(message: string)

  /** The outcome of an awaited write (upload, insert): success or an error object. */
  datatype Step = Done | Failed(message: string)

  /**
   * Everything the handler learns from outside: the collaborators' answers,
   * the clock, and the store's public URL for a key.
   */
  datatype Env = Env(
    user: UserLookup,
    form: FormRead,
    now: nat,
    upload: Step,
    publicUrlOf: string -> string,
    analysis: FetchOutcome,
    insert: Step)

  datatype Request = Request(httpMethod: string)

  /** The row the handler inserts; note it has an image URL column and no image path. */
  datatype AnalysisRow = AnalysisRow(userId: string, imageUrl: string, prediction: string, confidence: string, severityPercentage: real)

  /** Each collaborator call the handler makes, with the arguments that matter. */
  datatype Call =
    | GetUser
    | ReadFormData
    | Upload(bucket: string, path: string, payload: FormField)
    | GetPublicUrl(bucket: string, path: string)
    | PostPredict(endpoint: string, payload: FormField)
    | Insert(table: string, row: AnalysisRow)

  datatype Stage = UserStage | FormStage | UploadStage | PublicUrlStage | PredictStage | InsertStage

  /** The fixed order of the stages. */
  const StageOrder: seq<Stage> := [UserStage, FormStage, UploadStage, PublicUrlStage, PredictStage, InsertStage]

  function StageOf(c: Call): Stage
  {
    match c
    case GetUser => UserStage
    case ReadFormData => FormStage
    case Upload(_, _, _) => UploadStage
    case GetPublicUrl(_, _) => PublicUrlStage
    case PostPredict(_, _) => PredictStage
    case Insert(_, _) => InsertStage
  }

  /** True when the trace contains a call of the given stage. */
  predicate Invoked(trace: seq<Call>, stage: Stage)
  {
    exists i :: 0 <= i < |trace| && StageOf(trace[i]) == stage
  }

  datatype Headers = CorsOnly | CorsJson
  datatype Body = Text(text: string) | ResultJson(result: AnalysisResult) | ErrorJson(message: string)
  datatype Response = Response(status: nat, headers: Headers, body: Body)

  /** The answer to a browser pre-flight request. */
  const Preflight: Response := Response(200, CorsOnly, Text("ok"))

  /** The single failure answer: status 400 and a body holding only the message. */
  function Failure(message: string): (r: Response)
    ensures r.status == 400 && r.body.ErrorJson? && r.body.message == message
  {
    Response(400, CorsJson, ErrorJson(message))
  }

  /** Name of the form entry as `file.name` reads it: a text value has none, which renders as "undefined". */
  function FileName(f: FormField): string
    requires !f.Absent?
  {
    if f.FileField? then f.name else "undefined"
  }

  /** The storage key: owner id, "/", the millisecond clock, "_", the file name. */
  function StorageKey(userId: string, now: nat, fileName: string): string
  {
    userId + "/" + Decimal(now) + "_" + fileName
  }

  /**
   * The key determines its parts: with owner ids free of "/" (as generated
   * ids are), two equal keys have the same owner, timestamp and file name.
   */
  lemma {:induction false} StorageKeyInjective(u1: string, t1: nat, f1: string, u2: string, t2: nat, f2: string)
    requires '/' !in u1 && '/' !in u2
    requires StorageKey(u1, t1, f1) == StorageKey(u2, t2, f2)
    ensures u1 == u2 && t1 == t2 && f1 == f2
  {
    var d1, d2 := Decimal(t1), Decimal(t2);
    assert StorageKey(u1, t1, f1) == u1 + ['/'] + (d1 + ['_'] + f1);
    assert StorageKey(u2, t2, f2) == u2 + ['/'] + (d2 + ['_'] + f2);
    SplitAtSeparator(u1, d1 + ['_'] + f1, u2, d2 + ['_'] + f2, '/');
    assert '_' !in d1 by { assert forall i :: 0 <= i < |d1| ==> IsDigit(d1[i]); }
    assert '_' !in d2 by { assert forall i :: 0 <= i < |d2| ==> IsDigit(d2[i]); }
    SplitAtSeparator(d1, f1, d2, f2, '_');
    DecimalInjective(t1, t2);
  }

  /** The owner id is the key's first segment. */
  lemma StorageKeyOwnerPrefix(userId: string, now: nat, fileName: string)
    requires '/' !in userId
    ensures StartsWith(StorageKey(userId, now, fileName), userId + "/")
    ensures IndexOfChar(StorageKey(userId, now, fileName), '/') == |userId|
  {
    var k := StorageKey(userId, now, fileName);
    assert k == userId + ['/'] + (Decimal(now) + "_" + fileName);
    SeparatorIndex(userId, '/', Decimal(now) + "_" + fileName);
  }

  /** True when a user and a file name are at hand, so the storage key can be built. */
  predicate KeyReady(env: Env)
  {
    env.user.SignedIn? && env.form.FormParsed? && !env.form.file.Absent?
  }

  function KeyOf(env: Env): string
    requires KeyReady(env)
  {
    StorageKey(env.user.id, env.now, FileName(env.form.file))
  }

  /** The row written for a delivered analysis. */
  function RowOf(env: Env): AnalysisRow
    requires KeyReady(env) && Delivered(env.analysis)
  {
    var result := env.analysis.body.result;
    AnalysisRow(env.user.id, env.publicUrlOf(KeyOf(env)), result.prediction, result.confidence, result.severityPercentage)
  }

  /**
   * Reference for the early-exit policy: gate k says whether the stage after
   * stage k may run (the last gate: whether the handler answers 200).
   */
  function Gates(env: Env): (g: seq<bool>)
    ensures |g| == 6
  {
    [ !env.user.LookupFailed?,
      KeyReady(env),
      env.upload.Done?,
      true,
      Delivered(env.analysis),
      env.insert.Done? ]
  }

  /** The number of leading true gates. */
  function LeadingTrue(g: seq<bool>): (n: nat)
    ensures n <= |g|
    ensures forall i :: 0 <= i < n ==> g[i]
    ensures n < |g| ==> !g[n]
  {
    if g == [] || !g[0] then 0 else 1 + LeadingTrue(g[1..])
  }

  /** The three properties in LeadingTrue's contract pin its value down. */
  lemma LeadingTrueIs(g: seq<bool>, n: nat)
    requires n <= |g| && (forall i :: 0 <= i < n ==> g[i]) && (n < |g| ==> !g[n])
    ensures LeadingTrue(g) == n
  {
  }

  /** The gate count at which the handler stops, for the full gate list and for the first five. */
  lemma StopsAt(env: Env, k: nat)
    requires k <= 6 && (forall i :: 0 <= i < k ==> Gates(env)[i]) && (k < 6 ==> !Gates(env)[k])
    ensures LeadingTrue(Gates(env)) == k
    ensures LeadingTrue(Gates(env)[..5]) == if k < 5 then k else 5
  {
    LeadingTrueIs(Gates(env), k);
    LeadingTrueIs(Gates(env)[..5], if k < 5 then k else 5);
  }

  /** The message of the first failing gate: what the single catch block answers with. */
  function StageErrorMessage(env: Env, k: nat): string
  {
    if k == 0 then (if env.user.LookupFailed? then env.user.message else "")
    else if k == 1 then
      (if env.form.FormFailed? then env.form.message
       else if env.user.NoUser? then NullUserMessage
       else NullFileMessage)
    else if k == 2 then (if env.upload.Failed? then env.upload.message else "")
    else if k == 4 then
      (if env.analysis.FetchThrew? then env.analysis.message
       else if !env.analysis.ok then AnalysisFailedMessage
       else if env.analysis.body.Unparseable? then env.analysis.body.message
       else "")
    else if env.insert.Failed? then env.insert.message
    else ""
  }

  /**
   * The handler. OPTIONS is answered at once; any other method goes through
   * the staged pipeline.
   */
  method Handle(req: Request, env: Env) returns (resp: Response, trace: seq<Call>)
    // pre-flight: "ok" with CORS headers and no collaborator call
    ensures req.httpMethod == "OPTIONS" ==> resp == Preflight && trace == []
    ensures req.httpMethod != "OPTIONS" ==> Pipeline(env, resp, trace)
  {
    if req.httpMethod == "OPTIONS" {
      return Preflight, [];
    }
    resp, trace := Serve(env);
  }

  /**
   * What the staged pipeline promises: the stages run in the fixed order, each
   * only when all earlier ones succeeded; exactly the runs whose gates all pass
   * answer 200, with the analysis itself; every other run answers 400 with the
   * failing stage's message; the calls carry the key, the form and the row.
   */
  ghost predicate Pipeline(env: Env, resp: Response, trace: seq<Call>)
  {
    && |trace| == 1 + LeadingTrue(Gates(env)[..5])
    && (forall i :: 0 <= i < |trace| ==> StageOf(trace[i]) == StageOrder[i])
    && (resp.status == 200 <==> LeadingTrue(Gates(env)) == 6)
    && (resp.status == 200 ==>
          Delivered(env.analysis) && resp == Response(200, CorsJson, ResultJson(env.analysis.body.result)))
    && (resp.status != 200 ==> resp == Failure(StageErrorMessage(env, LeadingTrue(Gates(env)))))
    && (|trace| >= 3 ==> KeyReady(env) && trace[2] == Upload(ImageBucket, KeyOf(env), env.form.file))
    && (|trace| >= 4 ==> KeyReady(env) && trace[3] == GetPublicUrl(ImageBucket, KeyOf(env)))
    && (|trace| >= 5 ==> trace[4] == PostPredict(PredictEndpoint, env.form.file))
    && (|trace| == 6 ==> KeyReady(env) && Delivered(env.analysis) && trace[5] == Insert(AnalysesTable, RowOf(env)))
  }

  /** The body of the handler's `try` block together with its `catch`. */
  method Serve(env: Env) returns (resp: Response, trace: seq<Call>)
    ensures Pipeline(env, resp, trace)
  {
    trace := [GetUser];
    if env.user.LookupFailed? {
      StopsAt(env, 0);
      return Failure(env.user.message), trace;
    }
    trace := trace + [ReadFormData];
    if env.form.FormFailed? {
      StopsAt(env, 1);
      return Failure(env.form.message), trace;
    }
    // building the key reads `user.id`, then `file.name`
    if env.user.NoUser? {
      StopsAt(env, 1);
      return Failure(NullUserMessage), trace;
    }
    if env.form.file.Absent? {
      StopsAt(env, 1);
      return Failure(NullFileMessage), trace;
    }
    var rest;
    resp, rest := StoreAnalyzeRecord(env);
    trace := trace + rest;
    CompletesPipeline(env, resp, rest);
  }

  /**
   * The rest of the handler once the storage key can be built: upload, public
   * URL, prediction, insert and the answer. Calls are numbered as in Handle's
   * trace, which already holds the user lookup and the form read.
   */
  method StoreAnalyzeRecord(env: Env) returns (resp: Response, calls: seq<Call>)
    requires KeyReady(env)
    ensures StoresRecord(env, resp, calls)
  {
    var file := env.form.file;
    var filePath := StorageKey(env.user.id, env.now, FileName(file));
    calls := [Upload(ImageBucket, filePath, file)];
    if env.upload.Failed? {
      StopsAt(env, 2);
      return Failure(env.upload.message), calls;
    }
    calls := calls + [GetPublicUrl(ImageBucket, filePath)];
    var publicUrl := env.publicUrlOf(filePath);
    calls := calls + [PostPredict(PredictEndpoint, file)];
    if env.analysis.FetchThrew? {
      StopsAt(env, 4);
      return Failure(env.analysis.message), calls;
    }
    if !env.analysis.ok {
      StopsAt(env, 4);
      return Failure(AnalysisFailedMessage), calls;
    }
    if env.analysis.body.Unparseable? {
      StopsAt(env, 4);
      return Failure(env.analysis.body.message), calls;
    }
    var analysisResult := env.analysis.body.result;
    var row := AnalysisRow(env.user.id, publicUrl, analysisResult.prediction,
                           analysisResult.confidence, analysisResult.severityPercentage);
    calls := calls + [Insert(AnalysesTable, row)];
    if env.insert.Failed? {
      StopsAt(env, 5);
      return Failure(env.insert.message), calls;
    }
    StopsAt(env, 6);
    resp := Response(200, CorsJson, ResultJson(analysisResult));
  }

  /**
   * What the stages from the upload on promise, once the key can be built:
   * `Pipeline` with the calls numbered from the upload.
   */
  ghost predicate StoresRecord(env: Env, resp: Response, calls: seq<Call>)
    requires KeyReady(env)
  {
    && 2 + |calls| == 1 + LeadingTrue(Gates(env)[..5])
    && (forall i :: 0 <= i < |calls| ==> StageOf(calls[i]) == StageOrder[i + 2])
    && (resp.status == 200 <==> LeadingTrue(Gates(env)) == 6)
    && (resp.status == 200 ==>
          Delivered(env.analysis) && resp == Response(200, CorsJson, ResultJson(env.analysis.body.result)))
    && (resp.status != 200 ==> resp == Failure(StageErrorMessage(env, LeadingTrue(Gates(env)))))
    && (|calls| >= 1 ==> calls[0] == Upload(ImageBucket, KeyOf(env), env.form.file))
    && (|calls| >= 2 ==> calls[1] == GetPublicUrl(ImageBucket, KeyOf(env)))
    && (|calls| >= 3 ==> calls[2] == PostPredict(PredictEndpoint, env.form.file))
    && (|calls| == 4 ==> Delivered(env.analysis) && calls[3] == Insert(AnalysesTable, RowOf(env)))
  }

  /** The user lookup and the form read, followed by the stages from the upload on, make up the pipeline. */
  lemma CompletesPipeline(env: Env, resp: Response, rest: seq<Call>)
    requires KeyReady(env) && StoresRecord(env, resp, rest)
    ensures Pipeline(env, resp, [GetUser, ReadFormData] + rest)
  {
    var trace := [GetUser, ReadFormData] + rest;
    assert forall i :: 2 <= i < |trace| ==> trace[i] == rest[i - 2];
  }

  /** A failed user lookup stops the handler before any form read, upload, prediction or insert. */
  lemma LookupFailureStopsEverything(env: Env, resp: Response, trace: seq<Call>)
    requires Pipeline(env, resp, trace)
    requires env.user.LookupFailed?
    ensures trace == [GetUser]
    ensures resp == Failure(env.user.message)
  {
    StopsAt(env, 0);
  }

  /** A failed upload leaves prediction and insert uncalled. */
  lemma UploadFailureStopsPrediction(env: Env, resp: Response, trace: seq<Call>)
    requires Pipeline(env, resp, trace)
    requires env.upload.Failed?
    ensures |trace| <= 3
    ensures !Invoked(trace, PredictStage) && !Invoked(trace, InsertStage)
    ensures resp.status == 400
  {
    assert !Gates(env)[2];
  }

  /**
   * An analysis that is not delivered (fetch rejected, reply not ok, body not
   * JSON) leaves the insert uncalled and answers 400; the handler has no call
   * that deletes the object already uploaded.
   */
  lemma PredictionFailureStopsInsert(env: Env, resp: Response, trace: seq<Call>)
    requires Pipeline(env, resp, trace)
    requires !Delivered(env.analysis)
    ensures !Invoked(trace, InsertStage)
    ensures resp.status == 400
  {
    assert !Gates(env)[4] && !Gates(env)[..5][4];
  }

  /**
   * An insert failure is a failure like any other: the answer is 400 with the
   * insert error's message, and the analysis is not returned.
   */
  lemma InsertFailureHidesPrediction(env: Env, resp: Response, trace: seq<Call>)
    requires Pipeline(env, resp, trace)
    requires KeyReady(env) && env.upload.Done? && Delivered(env.analysis) && env.insert.Failed?
    ensures |trace| == 6 && trace[5].Insert?
    ensures resp == Failure(env.insert.message) && !resp.body.ResultJson?
  {
    StopsAt(env, 5);
  }

  /**
   * On success the caller's id owns the inserted row, the row copies the
   * analysis and points at the public URL of the uploaded key, and the 200
   * body is that analysis.
   */
  lemma SuccessRecordsCallerAnalysis(env: Env, resp: Response, trace: seq<Call>)
    requires Pipeline(env, resp, trace)
    requires resp.status == 200
    ensures env.user.SignedIn? && Delivered(env.analysis) && |trace| == 6
    ensures trace[5].Insert? && trace[5].table == AnalysesTable
    ensures trace[5].row.userId == env.user.id
    ensures trace[5].row.imageUrl == env.publicUrlOf(trace[2].path)
    ensures trace[5].row.prediction == env.analysis.body.result.prediction
    ensures trace[5].row.confidence == env.analysis.body.result.confidence
    ensures trace[5].row.severityPercentage == env.analysis.body.result.severityPercentage
    ensures resp.body == ResultJson(env.analysis.body.result)
  {
    StopsAt(env, 6);
  }

  /** Every failure answers 400 with a body holding only a message. */
  lemma FailuresCarryOnlyMessage(env: Env, resp: Response, trace: seq<Call>)
    requires Pipeline(env, resp, trace)
    requires resp.status != 200
    ensures resp.status == 400 && resp.headers == CorsJson && resp.body.ErrorJson?
  {
  }

  /** No stage is called twice in one run, and at most the six stages are called. */
  lemma EachStageAtMostOnce(env: Env, resp: Response, trace: seq<Call>, i: nat, j: nat)
    requires Pipeline(env, resp, trace)
    requires i < j < |trace|
    ensures |trace| <= |StageOrder|
    ensures StageOf(trace[i]) != StageOf(trace[j])
  {
  }
}
