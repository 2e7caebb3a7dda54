/**
 * The single-buffer editor page (src/pages/Editor.tsx): the language
 * switch, the code buffer and the run cycle. The call to the
 * `execute-code` function is I/O; its outcome arrives as a parameter of
 * `FinishRun`.
 */
module EditorPage {
  import opened Wrappers
  import Lists
  import ExecuteCode

  /** An entry of the language selector; `caption` is its `label`. */
  datatype LanguageOption = LanguageOption(value: string, caption: string, defaultCode: string)

  /** `languageOptions`, in menu order. */
  const LanguageOptions: seq<LanguageOption> := [
    LanguageOption("python", "Python", "# Write your Python code here\nprint('Hello, Bharat!')"),
    LanguageOption("javascript", "JavaScript", "// Write your JavaScript code here\nconsole.log('Hello, Bharat!');"),
    LanguageOption("cpp", "C++", "// Write your C++ code here\n#include <iostream>\nusing namespace std;\n\nint main() {\n    cout << \"Hello, Bharat!\" << endl;\n    return 0;\n}"),
    LanguageOption("java", "Java", "// Write your Java code here\npublic class Main {\n    public static void main(String[] args) {\n        System.out.println(\"Hello, Bharat!\");\n    }\n}")
  ]

  /** `languageOptions.find((l) => l.value === newLang)`. */
  function FindOption(options: seq<LanguageOption>, value: string): (r: Option<LanguageOption>)
    ensures r.Some? <==> exists i :: 0 <= i < |options| && options[i].value == value
    ensures r.Some? ==> r.value in options && r.value.value == value
    ensures r.Some? ==> exists i :: 0 <= i < |options| && options[i] == r.value && forall j :: 0 <= j < i ==> options[j].value != value
  {
    Lists.Find(options, (l: LanguageOption) => l.value == value)
  }

  /** The data `supabase.functions.invoke` hands back: the `output` and `error` fields, each possibly `null`. */
  datatype InvokeData = InvokeData(output: Option<string>, error: Option<string>)

  /** JavaScript truthiness of an optional string. */
  predicate Truthy(s: Option<string>) {
    s.Some? && s.value != ""
  }

  /** The output after a run: `data.output || data.error || "No output"`, or `Error: <message>` when the call failed. */
  function RunOutput(outcome: Result<InvokeData, string>): (output: string)
    ensures output != ""
    ensures outcome.Ok? && Truthy(outcome.value.output) ==> output == outcome.value.output.value
    ensures outcome.Ok? && !Truthy(outcome.value.output) && Truthy(outcome.value.error) ==>
      output == outcome.value.error.value
    ensures outcome.Ok? && !Truthy(outcome.value.output) && !Truthy(outcome.value.error) ==> output == "No output"
    ensures outcome.Err? ==> output == "Error: " + outcome.error
  {
    match outcome
    case Ok(data) =>
      if Truthy(data.output) then data.output.value
      else if Truthy(data.error) then data.error.value
      else "No output"
    case Err(msg) => "Error: " + msg
  }

  /** The data the editor reads from the `{ output, error }` body of a successful answer. */
  function DataOf(body: ExecuteCode.Body): (data: InvokeData)
    requires body.JsonResult?
    ensures data.output == Some(body.output) && data.error == body.error
  {
    InvokeData(Some(body.output), body.error)
  }

  /** A 2xx status. */
  predicate IsSuccess(status: nat) {
    200 <= status < 300
  }

  /**
   * What `supabase.functions.invoke` hands the editor for an answer of
   * `execute-code`: the data of a 2xx answer, or, for any other status,
   * the client library's own error, whose message is `httpErrorMessage`
   * (the server's `{ error }` body is not read).
   */
  function InvokeOutcome(response: ExecuteCode.Response, httpErrorMessage: string): (outcome: Result<InvokeData, string>)
    ensures IsSuccess(response.status) && response.body.JsonResult? ==>
      outcome == Ok(InvokeData(Some(response.body.output), response.body.error))
    ensures !IsSuccess(response.status) ==> outcome == Err(httpErrorMessage)
    ensures outcome.Ok? ==> IsSuccess(response.status)
  {
    if IsSuccess(response.status) && response.body.JsonResult? then Ok(DataOf(response.body))
    else Err(httpErrorMessage)
  }

  /** A successful answer of `execute-code` is shown verbatim: its output is never empty, so the fallbacks are not reached. */
  lemma ShowsServerOutput(result: ExecuteCode.SandboxResult, httpErrorMessage: string)
    ensures RunOutput(InvokeOutcome(ExecuteCode.Finish(Ok(result)), httpErrorMessage)) == ExecuteCode.OutputOf(result)
  {
  }

  /**
   * Every answer of the handler to a run request other than a 200 (the
   * 401 for a missing token, the 500 for an unreadable body or a failed
   * sandbox call) is shown as `Error: ` and the client's message, never
   * the server's `{ error }` text.
   */
  lemma HandlerErrorShowsClientMessage(authorization: Option<string>, body: Result<ExecuteCode.RequestBody, string>,
                                       sandbox: ExecuteCode.Submission -> Result<ExecuteCode.SandboxResult, string>,
                                       httpErrorMessage: string)
    requires ExecuteCode.Handle("POST", authorization, body, sandbox).status != 200
    ensures ExecuteCode.Handle("POST", authorization, body, sandbox).status in {401, 500}
    ensures RunOutput(InvokeOutcome(ExecuteCode.Handle("POST", authorization, body, sandbox), httpErrorMessage))
      == "Error: " + httpErrorMessage
  {
  }

  /** A run request answered with 200 had its code run by the sandbox, and the editor shows that run's output. */
  lemma OkShowsSandboxOutput(authorization: Option<string>, body: Result<ExecuteCode.RequestBody, string>,
                             sandbox: ExecuteCode.Submission -> Result<ExecuteCode.SandboxResult, string>,
                             httpErrorMessage: string)
    requires ExecuteCode.Handle("POST", authorization, body, sandbox).status == 200
    ensures ExecuteCode.Begin("POST", authorization, body).Submit?
    ensures sandbox(ExecuteCode.Begin("POST", authorization, body).submission).Ok?
    ensures RunOutput(InvokeOutcome(ExecuteCode.Handle("POST", authorization, body, sandbox), httpErrorMessage))
      == ExecuteCode.OutputOf(sandbox(ExecuteCode.Begin("POST", authorization, body).submission).value)
  {
  }

  /** The output pane: the output, or a hint while it is empty. */
  function OutputPane(output: string): (shown: string)
    ensures output != "" ==> shown == output
    ensures output == "" ==> shown == "Run your code to see output here..."
  {
    if output != "" then output else "Run your code to see output here..."
  }

  /** After a run the pane shows exactly the run's output, on success and on failure, since that output is never empty. */
  lemma PaneShowsRunOutput(outcome: Result<InvokeData, string>)
    ensures OutputPane(RunOutput(outcome)) == RunOutput(outcome)
  {
  }

  class Editor {
    const options: seq<LanguageOption>
    var language: string
    var code: string
    var output: string
    var isRunning: bool

    /** The language is always one the selector lists. */
    predicate Valid()
      reads this
    {
      FindOption(options, language).Some?
    }

    /** The initial state: Python with its sample program, no output, not running. */
    constructor ()
      ensures options == LanguageOptions
      ensures language == "python" && code == LanguageOptions[0].defaultCode
      ensures output == "" && !isRunning
      ensures Valid()
    {
      options := LanguageOptions;
      language := "python";
      code := LanguageOptions[0].defaultCode;
      output := "";
      isRunning := false;
      assert LanguageOptions[0].value == "python";
    }

    /** `handleLanguageChange`: a listed language loads its sample program and clears the output; any other value changes nothing. */
    method HandleLanguageChange(newLang: string)
      requires Valid()
      modifies this
      ensures FindOption(options, newLang).Some? ==>
        language == newLang && code == FindOption(options, newLang).value.defaultCode && output == ""
      ensures FindOption(options, newLang).None? ==>
        language == old(language) && code == old(code) && output == old(output)
      ensures isRunning == old(isRunning)
      ensures Valid()
    {
      var option := FindOption(options, newLang);
      if option.Some? {
        language := newLang;
        code := option.value.defaultCode;
        output := "";
      }
    }

    /** Monaco's `onChange`: `setCode(value || "")`. */
    method SetCode(value: Option<string>)
      requires Valid()
      modifies this
      ensures code == (if value.Some? then value.value else "")
      ensures language == old(language) && output == old(output) && isRunning == old(isRunning)
      ensures Valid()
    {
      code := if value.Some? then value.value else "";
    }

    /** The start of `runCode`: marks the run and sends `{ code, language }`. */
    method StartRun() returns (request: ExecuteCode.RequestBody)
      requires Valid()
      modifies this
      ensures isRunning && output == "Running code..."
      ensures request == ExecuteCode.RequestBody(code, language)
      ensures language == old(language) && code == old(code)
      ensures Valid()
    {
      isRunning := true;
      output := "Running code...";
      request := ExecuteCode.RequestBody(code, language);
    }

    /** The end of `runCode`: the output of the outcome, and the `finally` clears `isRunning` on both paths. */
    method FinishRun(outcome: Result<InvokeData, string>)
      requires Valid()
      modifies this
      ensures output == RunOutput(outcome) && !isRunning
      ensures language == old(language) && code == old(code)
      ensures Valid()
    {
      output := RunOutput(outcome);
      isRunning := false;
    }
  }

  /** No two options share a value. */
  predicate DistinctValues(options: seq<LanguageOption>) {
    forall j, k :: 0 <= j < k < |options| ==> options[j].value != options[k].value
  }

  /** The four options have four different values. */
  lemma LanguageOptionsDistinct()
    ensures DistinctValues(LanguageOptions)
  {
    var opts := LanguageOptions;
    assert opts[0].value == "python" && opts[1].value == "javascript";
    assert opts[2].value == "cpp" && opts[3].value == "java";
  }

  /** When values are distinct, choosing an option's value switches to that very option and its sample program. */
  lemma SwitchLoadsSample(options: seq<LanguageOption>, i: nat)
    requires DistinctValues(options) && i < |options|
    ensures FindOption(options, options[i].value) == Some(options[i])
  {
    var r := FindOption(options, options[i].value);
    var k :| 0 <= k < |options| && options[k] == r.value && forall j :: 0 <= j < k ==> options[j].value != options[i].value;
    assert !(i < k) && !(k < i);
  }
}
