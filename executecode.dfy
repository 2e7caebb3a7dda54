/**
 * The `execute-code` edge function
 * (supabase/functions/execute-code/index.ts): it answers CORS preflight
 * requests, refuses requests without an Authorization header, submits
 * the code to the Judge0 sandbox and turns the sandbox's result into the
 * JSON the editor reads.
 *
 * Reading the request body and calling the sandbox are I/O; they are
 * parameters here (the body as a parse result, the sandbox as a
 * function from a submission to its result or the message of the error
 * it threw).
 */
module ExecuteCode {
  import opened Wrappers
  import JsRecord

  /** The headers of a response: the CORS headers alone, or with `Content-Type: application/json`. */
  datatype Headers = CorsOnly | CorsJson

  /** The response body. */
  datatype Body =
    | NullBody                                        // `new Response(null, ...)`
    | JsonError(message: string)                      // `{ error: message }`
    | JsonResult(output: string, error: Option<string>) // `{ output, error }`; `None` is `null`

  datatype Response = Response(status: nat, headers: Headers, body: Body)

  /** The fields of the request body the function reads. */
  datatype RequestBody = RequestBody(code: string, language: string)

  /** What is posted to Judge0: the source and the language id. */
  datatype Submission = Submission(sourceCode: string, languageId: int)

  /** The fields of Judge0's answer the function reads; each may be `null` or missing. */
  datatype SandboxResult = SandboxResult(
    stdout: Option<string>, stderr: Option<string>, compileOutput: Option<string>,
    statusDescription: Option<string>)

  /** The id used for every language the table does not list: Python 3. */
  const DefaultLanguageId := 71

  /** `languageIds`: editor language -> Judge0 language id. */
  const LanguageIds: map<string, int> := map[
    "python" := 71, "javascript" := 63, "cpp" := 54, "java" := 62, "c" := 50,
    "csharp" := 51, "ruby" := 72, "go" := 60, "rust" := 73, "php" := 68,
    "swift" := 83, "kotlin" := 78]

  /**
   * The language id of a submission: the table's own entry, or 71 (the
   * corrected form of the lookup, see `LanguageIdAsWritten`).
   */
  function LanguageId(language: string): (id: int)
    ensures language in LanguageIds ==> id == LanguageIds[language]
    ensures language !in LanguageIds ==> id == DefaultLanguageId
  {
    if language in LanguageIds then LanguageIds[language] else DefaultLanguageId
  }

  /**
   * `languageIds[language] || 71` as Deno evaluates it: every id in the
   * table is non-zero, an inherited method of Object.prototype is a
   * truthy function (which `JSON.stringify` then drops from the request),
   * and `undefined`, which is also what `__proto__` reads under Deno,
   * falls back to 71.
   */
  function LanguageIdAsWritten(language: string): (r: JsRecord.Read<int>)
    ensures r.Undefined? == false
  {
    match JsRecord.PropertyRead(LanguageIds, JsRecord.DenoPrototypeMembers, language)
    case Own(v) => if v != 0 then JsRecord.Own(v) else JsRecord.Own(DefaultLanguageId)
    case Inherited(m) => JsRecord.Inherited(m)
    case Undefined => JsRecord.Own(DefaultLanguageId)
  }

  /** The two lookups agree on every language that does not name an Object.prototype member. */
  lemma LanguageIdAsWrittenAgrees(language: string)
    requires language !in JsRecord.DenoPrototypeMembers
    ensures LanguageIdAsWritten(language) == JsRecord.Own(LanguageId(language))
  {
  }

  /** Under Deno `languageIds["__proto__"]` is `undefined`, so that language runs as Python like any unlisted one. */
  lemma LanguageIdProtoRunsAsPython()
    ensures LanguageIdAsWritten("__proto__") == JsRecord.Own(DefaultLanguageId)
  {
    assert "__proto__" !in LanguageIds;
  }

  /** The language "toString" reads `Object.prototype.toString`, so the request is posted without a language id. */
  lemma LanguageIdAsWrittenInherited()
    ensures LanguageIdAsWritten("toString") == JsRecord.Inherited("toString")
  {
    assert "toString" !in LanguageIds;
  }

  /** Languages the file tree can assign but the table does not list run as Python. */
  lemma UnlistedLanguagesRunAsPython()
    ensures LanguageId("typescript") == 71 && LanguageId("html") == 71
    ensures LanguageId("css") == 71 && LanguageId("json") == 71
  {
    assert "typescript" !in LanguageIds && "html" !in LanguageIds;
    assert "css" !in LanguageIds && "json" !in LanguageIds;
  }

  /** JavaScript truthiness of an optional string: present and not empty. */
  predicate Truthy(s: Option<string>) {
    s.Some? && s.value != ""
  }

  /** `result.stdout || result.stderr || result.compile_output || 'No output'`. */
  function OutputOf(result: SandboxResult): (output: string)
    ensures output != ""
    ensures Truthy(result.stdout) ==> output == result.stdout.value
    ensures !Truthy(result.stdout) && Truthy(result.stderr) ==> output == result.stderr.value
    ensures !Truthy(result.stdout) && !Truthy(result.stderr) && Truthy(result.compileOutput) ==>
      output == result.compileOutput.value
    ensures !Truthy(result.stdout) && !Truthy(result.stderr) && !Truthy(result.compileOutput) ==>
      output == "No output"
  {
    if Truthy(result.stdout) then result.stdout.value
    else if Truthy(result.stderr) then result.stderr.value
    else if Truthy(result.compileOutput) then result.compileOutput.value
    else "No output"
  }

  /** `result.status?.description !== 'Accepted' ? result.stderr : null`; a missing status is not "Accepted". */
  function ErrorOf(result: SandboxResult): (error: Option<string>)
    ensures result.statusDescription == Some("Accepted") ==> error.None?
    ensures result.statusDescription != Some("Accepted") ==> error == result.stderr
  {
    if result.statusDescription == Some("Accepted") then None else result.stderr
  }

  /** The outcome of the part of the handler before the sandbox call. */
  datatype Step = Respond(response: Response) | Submit(submission: Submission)

  /**
   * The handler up to the sandbox call: a preflight is answered first,
   * then a missing or empty Authorization header is refused, then the
   * body is read (a body that cannot be read is a thrown error).
   */
  function Begin(httpMethod: string, authorization: Option<string>, body: Result<RequestBody, string>): (step: Step)
    ensures httpMethod == "OPTIONS" ==> step == Respond(Response(200, CorsOnly, NullBody))
    ensures httpMethod != "OPTIONS" && !Truthy(authorization) ==>
      step == Respond(Response(401, CorsJson, JsonError("Authentication required")))
    ensures httpMethod != "OPTIONS" && Truthy(authorization) && body.Err? ==>
      step == Respond(Response(500, CorsJson, JsonError(body.error)))
    ensures step.Submit? <==> httpMethod != "OPTIONS" && Truthy(authorization) && body.Ok?
    ensures step.Submit? ==> step.submission == Submission(body.value.code, LanguageId(body.value.language))
  {
    if httpMethod == "OPTIONS" then Respond(Response(200, CorsOnly, NullBody))
    else if !Truthy(authorization) then Respond(Response(401, CorsJson, JsonError("Authentication required")))
    else match body
      case Err(msg) => Respond(Response(500, CorsJson, JsonError(msg)))
      case Ok(b) => Submit(Submission(b.code, LanguageId(b.language)))
  }

  /** The handler after the sandbox call: its result as JSON, or a thrown error as status 500. */
  function Finish(result: Result<SandboxResult, string>): (response: Response)
    ensures response.headers == CorsJson
    ensures result.Ok? ==> response == Response(200, CorsJson, JsonResult(OutputOf(result.value), ErrorOf(result.value)))
    ensures result.Err? ==> response == Response(500, CorsJson, JsonError(result.error))
  {
    match result
    case Ok(r) => Response(200, CorsJson, JsonResult(OutputOf(r), ErrorOf(r)))
    case Err(msg) => Response(500, CorsJson, JsonError(msg))
  }

  /** The whole handler, with the sandbox as a parameter. */
  function Handle(httpMethod: string, authorization: Option<string>, body: Result<RequestBody, string>,
                  sandbox: Submission -> Result<SandboxResult, string>): (response: Response)
    ensures Begin(httpMethod, authorization, body).Respond? ==> response == Begin(httpMethod, authorization, body).response
    ensures Begin(httpMethod, authorization, body).Submit? ==> response == Finish(sandbox(Begin(httpMethod, authorization, body).submission))
  {
    match Begin(httpMethod, authorization, body)
    case Respond(r) => r
    case Submit(s) => Finish(sandbox(s))
  }

  /** The sandbox is called only for an authenticated request that is not a preflight and whose body could be read. */
  lemma SandboxOnlyWhenAuthenticated(httpMethod: string, authorization: Option<string>, body: Result<RequestBody, string>,
                                     sandbox: Submission -> Result<SandboxResult, string>)
    requires httpMethod == "OPTIONS" || !Truthy(authorization) || body.Err?
    ensures Handle(httpMethod, authorization, body, sandbox) == Handle(httpMethod, authorization, body, s => Err("unused"))
  {
  }

  /** Every 200 answer to a non-preflight request carries a result with a non-empty output. */
  lemma SuccessHasOutput(httpMethod: string, authorization: Option<string>, body: Result<RequestBody, string>,
                         sandbox: Submission -> Result<SandboxResult, string>)
    requires httpMethod != "OPTIONS"
    requires Handle(httpMethod, authorization, body, sandbox).status == 200
    ensures Handle(httpMethod, authorization, body, sandbox).body.JsonResult?
    ensures Handle(httpMethod, authorization, body, sandbox).body.output != ""
  {
  }

  /** An accepted run reports no error even when it wrote to stderr. */
  lemma AcceptedHasNoError(result: SandboxResult)
    requires result.statusDescription == Some("Accepted")
    ensures Finish(Ok(result)).body.error.None?
  {
  }
}
