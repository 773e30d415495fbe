/** The `POST` handler of web/app/api/ai/analyze/route.ts: a resume analysis cached in
    the append-only `ai_analysis_history` table under the SHA-256 digest of the
    sanitised content. */
module AnalyzeRoute {
  import opened Wrappers
  import opened Text
  import opened JsonData
  import opened Http
  import opened ApiAuth
  import opened Sanitize

  const ResumeType: string := "resume"
  const MissingContent: string := "Missing resumeContent"
  /** What V8 throws for `body.resumeContent` when the body is `null`. */
  const NullBodyMessage: string := "Cannot read properties of null (reading 'resumeContent')"

  // ---------------------------------------------------------------- the history table

  /** One row of `ai_analysis_history`; `createdAt` stands for `created_at`, which the
      table assigns when the row is inserted. */
  datatype HistoryRow = HistoryRow(resumeId: Json, kind: string, model: string, inputHash: string, output: Json, createdAt: int)

  predicate Matches(row: HistoryRow, resumeId: Json, kind: string, hash: string) {
    row.resumeId == resumeId && row.kind == kind && row.inputHash == hash
  }

  /** Rows in insertion order carry increasing `created_at`. */
  predicate Increasing(rows: seq<HistoryRow>) {
    forall i, j :: 0 <= i < j < |rows| ==> rows[i].createdAt < rows[j].createdAt
  }

  /** The lookup `.eq(resume_id).eq(type).eq(input_hash).order('created_at', desc).limit(1)
      .single()`: the last matching row in insertion order, None when nothing matches. */
  function LatestIn(rows: seq<HistoryRow>, resumeId: Json, kind: string, hash: string): (r: Option<HistoryRow>)
    ensures r.Some? ==> r.value in rows && Matches(r.value, resumeId, kind, hash)
  {
    if rows == [] then None
    else if Matches(rows[|rows| - 1], resumeId, kind, hash) then Some(rows[|rows| - 1])
    else LatestIn(rows[..|rows| - 1], resumeId, kind, hash)
  }

  /** The lookup finds a row exactly when one matches, and with increasing stamps the row
      it finds is the most recent match. */
  lemma {:induction false} LatestIsMostRecent(rows: seq<HistoryRow>, resumeId: Json, kind: string, hash: string)
    requires Increasing(rows)
    ensures LatestIn(rows, resumeId, kind, hash).None? <==> forall row :: row in rows ==> !Matches(row, resumeId, kind, hash)
    ensures LatestIn(rows, resumeId, kind, hash).Some? ==>
              forall row :: row in rows && Matches(row, resumeId, kind, hash) ==>
                row.createdAt <= LatestIn(rows, resumeId, kind, hash).value.createdAt
  {
    if rows != [] {
      var front := rows[..|rows| - 1];
      var last := rows[|rows| - 1];
      assert rows == front + [last];
      if Matches(last, resumeId, kind, hash) {
        forall row | row in rows ensures row.createdAt <= last.createdAt {
          var i :| 0 <= i < |rows| && rows[i] == row;
        }
      } else {
        LatestIsMostRecent(front, resumeId, kind, hash);
      }
    }
  }

  /** The `ai_analysis_history` table: rows are only ever appended, and the table stamps
      each one with the next value of its clock. */
  class AnalysisHistory {
    var rows: seq<HistoryRow>
    var clock: int

    ghost predicate Valid()
      reads this
    {
      Increasing(rows) && forall i :: 0 <= i < |rows| ==> rows[i].createdAt < clock
    }

    constructor ()
      ensures rows == [] && Valid()
    {
      rows := [];
      clock := 0;
    }

    /** `insert({ resume_id, type, model, input_hash, output_json })` */
    method Insert(resumeId: Json, kind: string, model: string, inputHash: string, output: Json)
      requires Valid()
      modifies this
      ensures Valid()
      ensures rows == old(rows) + [HistoryRow(resumeId, kind, model, inputHash, output, old(clock))]
      ensures clock == old(clock) + 1
    {
      rows := rows + [HistoryRow(resumeId, kind, model, inputHash, output, clock)];
      clock := clock + 1;
    }
  }

  // ---------------------------------------------------------------- the collaborators

  /** What the handler calls without the model looking inside: the SHA-256 hex digest,
      `JSON.stringify`, the loaded system prompt, `AI_PROVIDER`, `generateObject` (the
      object, or the message of what it threw), whether the history lookup fails (its
      `fetchError`, which the handler treats as a miss) and whether the history insert,
      whose error the handler ignores, succeeds. */
  datatype Services = Services(
    sha256Hex: string -> string,
    stringify: Json -> string,
    prompt: string,
    provider: Option<string>,
    generate: (string, string, string) -> Result<Json, string>,
    readFails: bool,
    insertSucceeds: bool)

  /** The authentication outcome and the parsed body (or the message `req.json()` threw). */
  datatype Request = Request(auth: AuthResult, body: Result<Json, string>)

  /** `process.env.AI_PROVIDER || 'openai'`, recorded with each row. */
  function ModelName(provider: Option<string>): (r: string)
    ensures r != ""
    ensures provider.Some? && provider.value != "" ==> r == provider.value
  {
    if provider.Some? && provider.value != "" then provider.value else "openai"
  }

  /** The model the request goes to. */
  function ModelId(provider: Option<string>): (r: string)
    ensures r == "deepseek-chat" <==> provider == Some("deepseek")
  {
    if provider == Some("deepseek") then "deepseek-chat" else "gpt-4o-mini"
  }

  /** The cache key: the digest of the serialised sanitised content. */
  function CacheKey(content: Json, svc: Services): string {
    svc.sha256Hex(svc.stringify(Sanitized(content)))
  }

  /** Contents that sanitise to the same value share a cache key. */
  lemma SameSanitizedSameKey(a: Json, b: Json, svc: Services)
    requires Sanitized(a) == Sanitized(b)
    ensures CacheKey(a, svc) == CacheKey(b, svc)
  {
  }

  /** `{ ...output_json, is_cached: true, cached_at, cached_model }` */
  function CachedResult(row: HistoryRow): (r: Json)
    ensures r.JObj?
    ensures Get(r, "is_cached") == Some(JBool(true))
    ensures Get(r, "cached_at") == Some(JNum(row.createdAt as real))
    ensures Get(r, "cached_model") == Some(JStr(row.model))
    ensures forall k :: k != "is_cached" && k != "cached_at" && k != "cached_model" ==> Get(r, k) == Get(row.output, k)
  {
    var base := if row.output.JObj? then row.output.entries else [];
    JObj(SetEntry(SetEntry(SetEntry(base, "is_cached", JBool(true)), "cached_at", JNum(row.createdAt as real)), "cached_model", JStr(row.model)))
  }

  // ---------------------------------------------------------------- the prompt

  /** The note appended to a prompt that lacks `json`, as written (the pieces spell one
      literal). */
  const JsonNoteAsWritten: string := "\n\nImportant: " + "Please return " + "the analysis " + "results in " + "valid JSON format."

  /** The prompt adjustment as written: a prompt without `json` gets the note. */
  function AdjustPromptAsWritten(prompt: string): (r: string)
    ensures Contains(prompt, "json") ==> r == prompt
    ensures !Contains(prompt, "json") ==> r == prompt + JsonNoteAsWritten
  {
    if Contains(prompt, "json") then prompt else prompt + JsonNoteAsWritten
  }

  /** The note spells `JSON` in capitals and `includes` is case-sensitive, so a prompt
      without `json` and without any `j` still lacks `json` after the adjustment. */
  lemma AsWrittenPromptMayLackJson(prompt: string)
    requires 'j' !in prompt
    ensures !Contains(AdjustPromptAsWritten(prompt), "json")
  {
    ContainsNeedsHead(prompt, "json");
    assert 'j' !in "\n\nImportant: ";
    assert 'j' !in "Please return ";
    assert 'j' !in "the analysis ";
    assert 'j' !in "results in ";
    assert 'j' !in "valid JSON format.";
    assert 'j' !in prompt + JsonNoteAsWritten;
    ContainsNeedsHead(prompt + JsonNoteAsWritten, "json");
  }

  /** The empty prompt is such an input. */
  lemma EmptyPromptLacksJson()
    ensures !Contains(AdjustPromptAsWritten(""), "json")
  {
    AsWrittenPromptMayLackJson("");
  }

  /** The note with `json` in lower case, as the comment and the log line beside the
      adjustment intend. */
  const JsonNote: string := "\n\nImportant: Please return the analysis results in valid " + "json" + " format."

  lemma JsonNoteHasJson()
    ensures Contains(JsonNote, "json")
  {
    var a := "\n\nImportant: Please return the analysis results in valid ";
    assert JsonNote[|a|..|a| + 4] == "json";
    assert StartsWith("json", "json");
    SubstringContains(JsonNote, |a|, |a| + 4, "json");
  }

  /** The corrected adjustment: the system prompt always contains `json`. */
  function AdjustPrompt(prompt: string): (r: string)
    ensures Contains(r, "json")
    ensures Contains(prompt, "json") ==> r == prompt
    ensures !Contains(prompt, "json") ==> r == prompt + JsonNote
  {
    if Contains(prompt, "json") then prompt
    else
      JsonNoteHasJson();
      ContainsInSuffix(prompt, JsonNote, "json");
      prompt + JsonNote
  }

  // ---------------------------------------------------------------- the handler

  /** The response and the new table. */
  datatype Outcome = Outcome(response: Response, rows: seq<HistoryRow>)

  /** The whole handler as a function of the table before the request. */
  function Analyze(rows: seq<HistoryRow>, clock: int, req: Request, svc: Services): (o: Outcome)
    ensures o.rows == rows ||
            (|o.rows| == |rows| + 1 && o.rows[..|rows|] == rows &&
             o.rows[|rows|].kind == ResumeType && o.rows[|rows|].createdAt == clock)
    ensures o.response.status in {200, 400, 401, 500}
  {
    if AuthGuard(req.auth).Some? then Outcome(AuthGuard(req.auth).value, rows)
    else
      match req.body
      case Failure(msg) => Outcome(Error(500, msg), rows)
      case Success(body) =>
        if body.JNull? then Outcome(Error(500, NullBodyMessage), rows)
        else
          var content := Get(body, "resumeContent");
          var resumeId := Get(body, "resumeId");
          var force := TruthyOpt(Get(body, "forceReanalyze"));
          if !TruthyOpt(content) then Outcome(Error(400, MissingContent), rows)
          else
            var hash := CacheKey(content.value, svc);
            var cached := if TruthyOpt(resumeId) && !force && !svc.readFails then LatestIn(rows, resumeId.value, ResumeType, hash) else None;
            if cached.Some? then Outcome(Ok(CachedResult(cached.value)), rows)
            else
              match svc.generate(ModelId(svc.provider), AdjustPromptAsWritten(svc.prompt), svc.stringify(Sanitized(content.value)))
              case Failure(msg) => Outcome(Error(500, msg), rows)
              case Success(obj) =>
                if TruthyOpt(resumeId) && svc.insertSucceeds then
                  var row := HistoryRow(resumeId.value, ResumeType, ModelName(svc.provider), hash, obj, clock);
                  assert (rows + [row])[..|rows|] == rows;
                  Outcome(Ok(obj), rows + [row])
                else Outcome(Ok(obj), rows)
  }

  /** `POST`: authenticate, read the body, sanitise and hash, consult the history unless
      forced, otherwise call the model and record the result. */
  method Post(history: AnalysisHistory, req: Request, svc: Services) returns (response: Response)
    requires history.Valid()
    modifies history
    ensures history.Valid()
    ensures Analyze(old(history.rows), old(history.clock), req, svc) == Outcome(response, history.rows)
  {
    var guard := AuthGuard(req.auth);
    if guard.Some? {
      return guard.value;
    }
    if req.body.Failure? {
      return Error(500, req.body.error);
    }
    var body := req.body.value;
    if body.JNull? {
      return Error(500, NullBodyMessage);
    }
    var content := Get(body, "resumeContent");
    var resumeId := Get(body, "resumeId");
    var force := TruthyOpt(Get(body, "forceReanalyze"));
    if !TruthyOpt(content) {
      return Error(400, MissingContent);
    }
    var sanitized := SanitizeResume(content.value);
    var hash := svc.sha256Hex(svc.stringify(sanitized));
    if TruthyOpt(resumeId) && !force && !svc.readFails {
      var existing := LatestIn(history.rows, resumeId.value, ResumeType, hash);
      if existing.Some? {
        return Ok(CachedResult(existing.value));
      }
    }
    var jsonPrompt := AdjustPromptAsWritten(svc.prompt);
    var generated := svc.generate(ModelId(svc.provider), jsonPrompt, svc.stringify(sanitized));
    if generated.Failure? {
      return Error(500, generated.error);
    }
    var obj := generated.value;
    if TruthyOpt(resumeId) && svc.insertSucceeds {
      history.Insert(resumeId.value, ResumeType, ModelName(svc.provider), hash, obj);
    }
    response := Ok(obj);
  }

  // ---------------------------------------------------------------- properties

  /** The request reaches the table and the model only when authentication succeeded and
      the body has a truthy `resumeContent`. */
  lemma GuardsComeFirst(rows: seq<HistoryRow>, clock: int, req: Request, svc: Services)
    ensures req.auth.Rejected? ==> Analyze(rows, clock, req, svc) == Outcome(AuthGuard(req.auth).value, rows)
    ensures req.auth.Authenticated? && req.body.Success? && req.body.value.JObj? &&
            !TruthyOpt(Get(req.body.value, "resumeContent")) ==>
              Analyze(rows, clock, req, svc) == Outcome(Error(400, MissingContent), rows)
  {
  }

  /** The body fields the cache decision reads. */
  predicate Consults(req: Request) {
    req.body.Success? && TruthyOpt(Get(req.body.value, "resumeId")) && !TruthyOpt(Get(req.body.value, "forceReanalyze"))
  }

  /** Without a `resumeId`, with `forceReanalyze`, or when the lookup fails, the history
      is never used: the response is the same whatever the table holds. */
  lemma BypassIgnoresHistory(rows: seq<HistoryRow>, rows': seq<HistoryRow>, clock: int, req: Request, svc: Services)
    requires !Consults(req) || svc.readFails
    ensures Analyze(rows, clock, req, svc).response == Analyze(rows', clock, req, svc).response
  {
  }

  /** On a hit the most recent matching row is returned with the cache fields, the table
      is unchanged, and the model is not called: any other model gives the same outcome. */
  lemma HitSkipsModel(rows: seq<HistoryRow>, clock: int, req: Request, svc: Services, g: (string, string, string) -> Result<Json, string>)
    requires req.auth.Authenticated? && Consults(req) && !svc.readFails && !req.body.value.JNull?
    requires TruthyOpt(Get(req.body.value, "resumeContent"))
    requires LatestIn(rows, Get(req.body.value, "resumeId").value, ResumeType,
                      CacheKey(Get(req.body.value, "resumeContent").value, svc)).Some?
    ensures Analyze(rows, clock, req, svc) ==
            Outcome(Ok(CachedResult(LatestIn(rows, Get(req.body.value, "resumeId").value, ResumeType,
                                             CacheKey(Get(req.body.value, "resumeContent").value, svc)).value)), rows)
    ensures Analyze(rows, clock, req, svc) == Analyze(rows, clock, req, svc.(generate := g))
  {
  }

  /** On a miss (no stored match, or a failed lookup), the model is called with the
      as-written prompt, and a row is appended exactly when there is a `resumeId`, the
      model answered and the insert went through; it records the id, the key, the
      provider and the object. */
  lemma MissRecords(rows: seq<HistoryRow>, clock: int, req: Request, svc: Services)
    requires req.auth.Authenticated? && req.body.Success? && !req.body.value.JNull?
    requires TruthyOpt(Get(req.body.value, "resumeContent"))
    requires !Consults(req) || svc.readFails ||
             LatestIn(rows, Get(req.body.value, "resumeId").value, ResumeType,
                      CacheKey(Get(req.body.value, "resumeContent").value, svc)).None?
    ensures var content := Get(req.body.value, "resumeContent").value;
            var g := svc.generate(ModelId(svc.provider), AdjustPromptAsWritten(svc.prompt), svc.stringify(Sanitized(content)));
            var o := Analyze(rows, clock, req, svc);
            && (g.Failure? ==> o == Outcome(Error(500, g.error), rows))
            && (g.Success? ==> o.response == Ok(g.value))
            && (g.Success? && TruthyOpt(Get(req.body.value, "resumeId")) && svc.insertSucceeds ==>
                  o.rows == rows + [HistoryRow(Get(req.body.value, "resumeId").value, ResumeType, ModelName(svc.provider),
                                               CacheKey(content, svc), g.value, clock)])
            && (g.Success? && !(TruthyOpt(Get(req.body.value, "resumeId")) && svc.insertSucceeds) ==> o.rows == rows)
  {
  }

  /** After a request that recorded its result, the same request without the force flag is
      answered from the table: the recorded object with the cache fields, and no model call. */
  lemma RepeatIsCached(rows: seq<HistoryRow>, clock: int, req: Request, svc: Services)
    requires Consults(req) && !svc.readFails
    requires Analyze(rows, clock, req, svc).rows != rows
    ensures var o := Analyze(rows, clock, req, svc);
            var next := Analyze(o.rows, clock + 1, req, svc);
            && o.response.status == 200
            && next == Outcome(Ok(CachedResult(o.rows[|rows|])), o.rows)
            && o.rows[|rows|].output == o.response.body
  {
    var body := req.body.value;
    var content := Get(body, "resumeContent").value;
    var o := Analyze(rows, clock, req, svc);
    var row := o.rows[|rows|];
    assert o.rows == rows + [row];
    assert Matches(row, Get(body, "resumeId").value, ResumeType, CacheKey(content, svc));
    assert LatestIn(o.rows, Get(body, "resumeId").value, ResumeType, CacheKey(content, svc)) == Some(row);
  }
}
