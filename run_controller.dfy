/**
 * `runCode`: the "Run" button. With a custom input it runs the code once and
 * reports the output; otherwise it runs the code on the first two sample
 * test cases and classifies each run, never stopping early.
 */
module RunController {
  import opened Wrappers
  import opened Strings
  import opened Models
  import opened Runners
  import opened Judge

  /**
   * The request body. A missing or empty `problemId`, `language` or `code` is
   * the empty string (both are falsy); `customInput` is Some exactly when it
   * is a string.
   */
  datatype RunRequest = RunRequest(problemId: string, language: string, code: string, customInput: Option<string>)

  datatype SampleStatus = OK | TLE | Error

  /** One element of the `results` array. */
  datatype SampleResult = SampleResult(input: string, expected: string, actual: string,
                                       passed: bool, error: bool, status: SampleStatus)

  datatype RunResponse =
    | BadRequest(message: string)          // 400
    | ProblemNotFound                      // 404
    | ServerError                          // 500, from the outer catch
    | CustomOutput(output: string, tle: bool)   // 200, custom-input run
    | SampleResults(results: seq<SampleResult>) // 200, sample run

  function NotSupported(language: string): string {
    language + " is not supported yet."
  }

  /** `problem && problem.timeLimit`, as the timeout expression reads it. */
  function TimeLimitOf(problem: Lookup<Problem>): Option<int> {
    if problem.Found? then Some(problem.doc.timeLimit) else None
  }

  /** The classification of one sample run by `runner`, the runner the language selects. */
  function SampleOutcome(language: string, runner: Option<Runner>, code: string, timeLimit: Option<int>, t: TestCase, exec: Exec): (r: SampleResult)
    ensures r.input == t.input && r.expected == t.output
    ensures r.error <==> r.status != OK
    ensures r.passed ==> r.status == OK
    ensures runner.None? ==> r.status == Error && !r.passed && r.actual == NotSupported(language)
    ensures runner.Some? ==>
      var s := exec(runner.value, code, t.input, TimeoutMs(timeLimit, runner.value));
      && (r.status == OK <==> s.Resolved?)
      && (s.Resolved? ==> r.actual == s.stdout && (r.passed <==> Matches(s.stdout, t.output)))
      && (s.Rejected? ==> r.actual == ErrorText(s.stderr) && (r.status == TLE <==> IsTle(s.stderr)))
  {
    if runner.None? then SampleResult(t.input, t.output, NotSupported(language), false, true, Error)
    else match exec(runner.value, code, t.input, TimeoutMs(timeLimit, runner.value))
      case Resolved(out) => SampleResult(t.input, t.output, out, Matches(out, t.output), false, OK)
      case Rejected(err) => SampleResult(t.input, t.output, ErrorText(err), false, true, if IsTle(err) then TLE else Error)
  }

  /** The response of a custom-input run for a supported language. */
  function CustomOutcome(s: Settlement): (r: RunResponse)
    ensures r.CustomOutput?
    ensures s.Resolved? ==> r.output == s.stdout && !r.tle
    ensures s.Rejected? ==> r.output == ErrorText(s.stderr) && (r.tle <==> IsTle(s.stderr))
  {
    match s
    case Resolved(out) => CustomOutput(out, false)
    case Rejected(err) => CustomOutput(ErrorText(err), IsTle(err))
  }

  /**
   * The Run button and the judge agree on a sample: for a supported
   * language and the problem's time limit, the run passes exactly when the
   * judge's record passes, and reports TLE exactly when the judge would give
   * time_limit_exceeded for that test.
   */
  lemma RunAgreesWithJudge(l: Language, code: string, timeLimit: int, t: TestCase, exec: Exec, i: nat)
    requires l == CppLang || l == JavaLang || l == PythonLang
    ensures var run := SampleOutcome(LanguageName(l), RunnerForName(LanguageName(l)), code, Some(timeLimit), t, exec);
      var a := AttemptOf(l, code, timeLimit, t, exec);
      && (run.passed <==> ResultFor(i, t, a).passed)
      && (run.status == OK <==> a.Ran?)
      && (run.status == TLE <==> a.Threw? && ErrorStatus(a.stderr) == TimeLimitExceeded)
      && run.actual == ResultFor(i, t, a).actual
  {
    RunnerForLanguage(l);
  }

  /**
   * `runCode(req, res)`. `problem` is the outcome of `Problem.findById`,
   * which runs before either branch (a malformed id throws, giving 500).
   */
  method RunCode(req: RunRequest, problem: Lookup<Problem>, exec: Exec) returns (resp: RunResponse)
    ensures req.problemId == "" || req.language == "" || req.code == "" ==> resp == BadRequest("Missing required fields")
    ensures req.problemId != "" && req.language != "" && req.code != "" ==>
      var runner := RunnerForName(req.language);
      && (problem.LookupFailed? ==> resp == ServerError)
      && (!problem.LookupFailed? && req.customInput.Some? && runner.None? ==> resp == BadRequest(NotSupported(req.language)))
      && (!problem.LookupFailed? && req.customInput.Some? && runner.Some? ==>
            resp == CustomOutcome(exec(runner.value, req.code, req.customInput.value, TimeoutMs(TimeLimitOf(problem), runner.value))))
      && (problem.Missing? && req.customInput.None? ==> resp == ProblemNotFound)
      && (problem.Found? && req.customInput.None? ==>
            var samples := problem.doc.sampleTestCases;
            && resp.SampleResults?
            && |resp.results| == (if |samples| < 2 then |samples| else 2)
            && forall i :: 0 <= i < |resp.results| ==>
                 resp.results[i] == SampleOutcome(req.language, RunnerForName(req.language), req.code, Some(problem.doc.timeLimit), samples[i], exec))
  {
    if req.problemId == "" || req.language == "" || req.code == "" {
      return BadRequest("Missing required fields");
    }
    if problem.LookupFailed? {
      return ServerError;
    }
    var runner := RunnerForName(req.language);
    if req.customInput.Some? {
      if runner.None? {
        return BadRequest(NotSupported(req.language));
      }
      resp := RunCustom(runner.value, req.code, req.customInput.value, TimeoutMs(TimeLimitOf(problem), runner.value), exec);
      return;
    }
    if problem.Missing? {
      return ProblemNotFound;
    }
    var p := problem.doc;
    var publicTestCases := if |p.sampleTestCases| < 2 then p.sampleTestCases else p.sampleTestCases[..2];
    var results := RunSamples(req.language, req.code, runner, p.timeLimit, publicTestCases, exec);
    resp := SampleResults(results);
  }

  /** The custom-input branch for a supported language: one run, its output or its error. */
  method RunCustom(runner: Runner, code: string, input: string, timeout: int, exec: Exec) returns (resp: RunResponse)
    ensures resp == CustomOutcome(exec(runner, code, input, timeout))
  {
    var settlement := exec(runner, code, input, timeout);
    if settlement.Resolved? {
      return CustomOutput(settlement.stdout, false);
    }
    var tle := Contains(settlement.stderr, TleMarker);
    return CustomOutput(if settlement.stderr != "" then settlement.stderr else "Execution Error", tle);
  }

  /** The loop over the public samples: one classified result per sample, none skipped. */
  method RunSamples(language: string, code: string, runner: Option<Runner>, timeLimit: int,
                    samples: seq<TestCase>, exec: Exec) returns (results: seq<SampleResult>)
    ensures |results| == |samples|
    ensures forall j :: 0 <= j < |results| ==> results[j] == SampleOutcome(language, runner, code, Some(timeLimit), samples[j], exec)
  {
    results := [];
    for i := 0 to |samples|
      invariant |results| == i
      invariant forall j :: 0 <= j < i ==> results[j] == SampleOutcome(language, runner, code, Some(timeLimit), samples[j], exec)
    {
      var record := RunSample(language, code, runner, timeLimit, samples[i], exec);
      results := results + [record];
    }
  }

  /** One iteration of the sample loop. */
  method RunSample(language: string, code: string, runner: Option<Runner>, timeLimit: int,
                   testCase: TestCase, exec: Exec) returns (record: SampleResult)
    ensures record == SampleOutcome(language, runner, code, Some(timeLimit), testCase, exec)
  {
    if runner.None? {
      return SampleResult(testCase.input, testCase.output, NotSupported(language), false, true, Error);
    }
    var settlement := exec(runner.value, code, testCase.input, TimeoutMs(Some(timeLimit), runner.value));
    if settlement.Resolved? {
      var passed := Matches(settlement.stdout, testCase.output);
      record := SampleResult(testCase.input, testCase.output, settlement.stdout, passed, false, OK);
    } else {
      var tle := Contains(settlement.stderr, TleMarker);
      var actual := if settlement.stderr != "" then settlement.stderr else "Execution Error";
      record := SampleResult(testCase.input, testCase.output, actual, false, true, if tle then TLE else Error);
    }
  }
}
