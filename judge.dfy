/**
 * `judgeSubmission`: runs a submission against the problem's sample and
 * hidden test cases, in that order, and records the verdict.
 *
 * The runners are an oracle `Exec`: given a runner, the code, the input and
 * the timeout it returns how the runner's Promise settles. Wall-clock
 * measurements (`executionTime`) are not modelled.
 */
module Judge {
  import opened Wrappers
  import opened Strings
  import opened Models
  import opened Runners

  /** How a runner call settles, for every argument list. */
  type Exec = (Runner, string, string, int) -> Settlement

  /** `switch (language.toLowerCase())` over the three supported runners. */
  function RunnerForName(name: string): (r: Option<Runner>)
    ensures r == Some(Python) <==> ToLower(name) == "python"
    ensures r == Some(Cpp) <==> ToLower(name) == "cpp"
    ensures r == Some(Java) <==> ToLower(name) == "java"
  {
    var n := ToLower(name);
    if n == "python" then Some(Python)
    else if n == "cpp" then Some(Cpp)
    else if n == "java" then Some(Java)
    else None
  }

  lemma LowerOfLower(s: string)
    requires forall i :: 0 <= i < |s| ==> !('A' <= s[i] <= 'Z')
    ensures ToLower(s) == s
  {
  }

  /**
   * Of the five languages a submission may name, exactly cpp, java and python
   * reach a runner; c and javascript are accepted by the schema but cannot
   * be judged. The dispatch is case-insensitive.
   */
  lemma RunnerForLanguage(l: Language)
    ensures RunnerForName(LanguageName(l)).Some? <==> l == CppLang || l == JavaLang || l == PythonLang
    ensures RunnerForName("JAVA") == Some(Java)
  {
    LowerOfLower(LanguageName(l));
    assert ToLower("JAVA") == "java";
  }

  /**
   * The per-test timeout: `timeLimit * 1000` when the problem has a truthy
   * time limit, otherwise the runner's default (10000 for java, 5000 else).
   */
  function TimeoutMs(timeLimit: Option<int>, r: Runner): (ms: int)
    ensures timeLimit.Some? && timeLimit.value != 0 ==> ms == timeLimit.value * 1000
    ensures timeLimit.None? || timeLimit.value == 0 ==> ms == DefaultTimeoutMs(r)
  {
    if timeLimit.Some? && timeLimit.value != 0 then timeLimit.value * 1000 else DefaultTimeoutMs(r)
  }

  /**
   * The schema's default time limit, documented as 1000 milliseconds, becomes
   * a timeout of 1000 seconds once multiplied; a zero limit falls back to the
   * runner's own default.
   */
  lemma TimeoutUnits(r: Runner)
    ensures TimeoutMs(Some(1000), r) == 1000000
    ensures TimeoutMs(Some(0), r) == DefaultTimeoutMs(r) == (if r == Java then 10000 else 5000)
  {
  }

  /** What one test run did: returned an output, or threw (the error's `stderr`, "" when it has none). */
  datatype Attempt = Ran(output: string) | Threw(stderr: string)

  /** Run one test case: an unsupported language throws an error without `stderr`. */
  function AttemptOf(language: Language, code: string, timeLimit: int, t: TestCase, exec: Exec): Attempt {
    var r := RunnerForName(LanguageName(language));
    if r.None? then Threw("")
    else match exec(r.value, code, t.input, TimeoutMs(Some(timeLimit), r.value))
      case Resolved(out) => Ran(out)
      case Rejected(err) => Threw(err)
  }

  /** `output.trim() === expected.trim()`. */
  predicate Matches(output: string, expected: string) {
    Trim(output) == Trim(expected)
  }

  /** `error.stderr && error.stderr.includes('Time Limit Exceeded')`. */
  predicate IsTle(stderr: string) {
    Contains(stderr, TleMarker)
  }

  /** `error.stderr || 'Execution Error'`. */
  function ErrorText(stderr: string): (s: string)
    ensures s != ""
    ensures stderr != "" ==> s == stderr
  {
    if stderr != "" then stderr else "Execution Error"
  }

  /** A result record as `judgeSubmission` pushes it. */
  datatype TestResult = TestResult(testCaseNumber: nat, passed: bool, input: string, expected: string,
                                   actual: string, errorMessage: Option<string>)

  function ResultFor(i: nat, t: TestCase, a: Attempt): (r: TestResult)
    ensures r.testCaseNumber == i + 1 && r.input == t.input && r.expected == t.output
    ensures r.passed <==> a.Ran? && Matches(a.output, t.output)
    ensures a.Ran? ==> r.actual == a.output && r.errorMessage == None
    ensures a.Threw? ==> r.errorMessage == Some(r.actual) && r.actual == ErrorText(a.stderr)
  {
    match a
    case Ran(out) => TestResult(i + 1, Matches(out, t.output), t.input, t.output, out, None)
    case Threw(err) => TestResult(i + 1, false, t.input, t.output, ErrorText(err), Some(ErrorText(err)))
  }

  /** The part of a result the schema keeps: input, expected and actual output are not in it. */
  function Stored(results: seq<TestResult>): (s: seq<StoredResult>)
    ensures |s| == |results|
    ensures forall i :: 0 <= i < |s| ==> s[i] == StoredResult(results[i].testCaseNumber, results[i].passed, results[i].errorMessage)
  {
    seq(|results|, i requires 0 <= i < |results| => StoredResult(results[i].testCaseNumber, results[i].passed, results[i].errorMessage))
  }

  /** The test cases in the order they run: samples first, then hidden cases. */
  function AllTests(p: Problem): (tests: seq<TestCase>)
    ensures |tests| == |p.sampleTestCases| + |p.testCases|
    ensures tests[..|p.sampleTestCases|] == p.sampleTestCases
    ensures tests[|p.sampleTestCases|..] == p.testCases
  {
    p.sampleTestCases + p.testCases
  }

  /** The status a thrown error gives: TLE when the marker is present, a runtime error otherwise. */
  function ErrorStatus(stderr: string): (s: Status)
    ensures s == TimeLimitExceeded <==> IsTle(stderr)
    ensures s == TimeLimitExceeded || s == RuntimeError
  {
    if IsTle(stderr) then TimeLimitExceeded else RuntimeError
  }

  /** Every test's attempt, in run order (the oracle is deterministic, so the attempts are fixed by the inputs). */
  function Attempts(sub: Submission, p: Problem, exec: Exec): (a: seq<Attempt>)
    ensures |a| == |AllTests(p)|
    ensures forall i :: 0 <= i < |a| ==> a[i] == AttemptOf(sub.language, sub.code, p.timeLimit, AllTests(p)[i], exec)
  {
    var tests := AllTests(p);
    seq(|tests|, i requires 0 <= i < |tests| => AttemptOf(sub.language, sub.code, p.timeLimit, tests[i], exec))
  }

  /** The index of the first test that throws, or the number of tests when none does. */
  function FirstThrow(atts: seq<Attempt>): (k: nat)
    ensures k <= |atts|
    ensures forall j :: 0 <= j < k ==> atts[j].Ran?
    ensures k < |atts| ==> atts[k].Threw?
  {
    if atts == [] || atts[0].Threw? then 0 else 1 + FirstThrow(atts[1..])
  }

  /** How many tests run: up to and including the first throw. */
  function RunCount(atts: seq<Attempt>): nat {
    if FirstThrow(atts) < |atts| then FirstThrow(atts) + 1 else |atts|
  }

  /** Whether test `j` ran and its output matched. */
  predicate PassedAt(tests: seq<TestCase>, atts: seq<Attempt>, j: nat)
    requires j < |tests| == |atts|
  {
    atts[j].Ran? && Matches(atts[j].output, tests[j].output)
  }

  /**
   * The status `judgeSubmission` records: the first throw decides it
   * (overwriting any earlier wrong answer); otherwise accepted exactly when
   * every test passed, and wrong answer if some test did not.
   */
  function VerdictOf(tests: seq<TestCase>, atts: seq<Attempt>): Status
    requires |tests| == |atts|
  {
    var k := FirstThrow(atts);
    if k < |atts| then ErrorStatus(atts[k].stderr)
    else if forall j :: 0 <= j < |atts| ==> PassedAt(tests, atts, j) then Accepted
    else WrongAnswer
  }

  /** The records pushed: one per test that ran, in order. */
  function ResultsOf(tests: seq<TestCase>, atts: seq<Attempt>): (rs: seq<TestResult>)
    requires |tests| == |atts|
    ensures |rs| == RunCount(atts) <= |tests|
    ensures forall i :: 0 <= i < |rs| ==> rs[i] == ResultFor(i, tests[i], atts[i])
  {
    seq(RunCount(atts), i requires 0 <= i < RunCount(atts) => ResultFor(i, tests[i], atts[i]))
  }

  /** Accepted exactly when every test ran and every output matched. */
  lemma AcceptedIffAllPass(tests: seq<TestCase>, atts: seq<Attempt>)
    requires |tests| == |atts|
    ensures VerdictOf(tests, atts) == Accepted <==> forall j :: 0 <= j < |tests| ==> PassedAt(tests, atts, j)
  {
    var k := FirstThrow(atts);
    if k < |atts| {
      assert !PassedAt(tests, atts, k);
    }
  }

  /**
   * A wrong answer never stops the loop: when no test throws, every test
   * runs and has its record, and a failed comparison gives wrong answer.
   */
  lemma WrongAnswerContinues(tests: seq<TestCase>, atts: seq<Attempt>, j: nat)
    requires |tests| == |atts| && j < |tests|
    requires forall i :: 0 <= i < |atts| ==> atts[i].Ran?
    requires !Matches(atts[j].output, tests[j].output)
    ensures |ResultsOf(tests, atts)| == |tests|
    ensures VerdictOf(tests, atts) == WrongAnswer
  {
    assert !PassedAt(tests, atts, j);
  }

  /**
   * A throw at test `k` ends the loop there and decides the verdict alone,
   * whatever the earlier comparisons gave: TLE exactly when its stderr
   * carries the marker, a runtime error otherwise.
   */
  lemma ThrowDecides(tests: seq<TestCase>, atts: seq<Attempt>, k: nat)
    requires |tests| == |atts| && k < |tests| && atts[k].Threw?
    requires forall i :: 0 <= i < k ==> atts[i].Ran?
    ensures |ResultsOf(tests, atts)| == k + 1
    ensures VerdictOf(tests, atts) == TimeLimitExceeded <==> IsTle(atts[k].stderr)
    ensures VerdictOf(tests, atts) == RuntimeError <==> !IsTle(atts[k].stderr)
    ensures ResultsOf(tests, atts)[k].actual == ErrorText(atts[k].stderr) && !ResultsOf(tests, atts)[k].passed
  {
    assert FirstThrow(atts) == k;
  }

  /** With no test cases at all the verdict is accepted, with no results. */
  lemma NoTestsAccepted()
    ensures VerdictOf([], []) == Accepted && ResultsOf([], []) == []
  {
  }

  /**
   * A language the runners do not support (c, javascript) throws on the first
   * test: one record, 'Execution Error', and a runtime error.
   */
  lemma UnsupportedLanguage(sub: Submission, p: Problem, exec: Exec)
    requires sub.language == C || sub.language == JavaScript
    requires |AllTests(p)| > 0
    ensures VerdictOf(AllTests(p), Attempts(sub, p, exec)) == RuntimeError
    ensures var rs := ResultsOf(AllTests(p), Attempts(sub, p, exec));
      |rs| == 1 && rs[0].actual == "Execution Error" && !rs[0].passed
  {
    RunnerForLanguage(sub.language);
    var atts := Attempts(sub, p, exec);
    assert atts[0] == Threw("");
    ThrowDecides(AllTests(p), atts, 0);
    assert !Contains("", TleMarker);
  }

  /** What holds after the first `i` tests ran without a throw. */
  predicate Progress(tests: seq<TestCase>, atts: seq<Attempt>, i: nat, status: Status, results: seq<TestResult>)
    requires |tests| == |atts|
  {
    && i <= |tests| && |results| == i
    && i <= FirstThrow(atts) <= RunCount(atts)
    && results == ResultsOf(tests, atts)[..i]
    && (status == Accepted || status == WrongAnswer)
    && (status == Accepted <==> forall j :: 0 <= j < i ==> PassedAt(tests, atts, j))
  }

  /** The verdict loop of `judgeSubmission` over a problem's test cases. */
  method JudgeTests(sub: Submission, p: Problem, exec: Exec) returns (status: Status, results: seq<TestResult>)
    ensures status == VerdictOf(AllTests(p), Attempts(sub, p, exec))
    ensures results == ResultsOf(AllTests(p), Attempts(sub, p, exec))
  {
    var tests := AllTests(p);
    ghost var atts := Attempts(sub, p, exec);
    status := Accepted;
    results := [];
    var runner := RunnerForName(LanguageName(sub.language));
    var i := 0;
    while i < |tests|
      invariant Progress(tests, atts, i, status, results)
    {
      var stop;
      stop, status, results := JudgeStep(sub, p, exec, runner, i, status, results);
      if stop {
        return;
      }
      i := i + 1;
    }
    LoopEnd(tests, atts, results, status);
  }

  /**
   * One iteration of the loop: run test `i`; a throw sets the final status,
   * pushes the error record and stops the loop, and otherwise the record is
   * pushed and a failed comparison turns accepted into wrong answer.
   */
  method JudgeStep(sub: Submission, p: Problem, exec: Exec, runner: Option<Runner>, i: nat,
                   status: Status, results: seq<TestResult>)
    returns (stop: bool, status': Status, results': seq<TestResult>)
    requires runner == RunnerForName(LanguageName(sub.language))
    requires i < |AllTests(p)|
    requires Progress(AllTests(p), Attempts(sub, p, exec), i, status, results)
    ensures stop ==> status' == VerdictOf(AllTests(p), Attempts(sub, p, exec))
    ensures stop ==> results' == ResultsOf(AllTests(p), Attempts(sub, p, exec))
    ensures !stop ==> Progress(AllTests(p), Attempts(sub, p, exec), i + 1, status', results')
  {
    var tests := AllTests(p);
    ghost var atts := Attempts(sub, p, exec);
    var testCase := tests[i];
    var attempt := RunTest(sub, p, testCase, runner, exec);
    assert attempt == atts[i];
    if attempt.Threw? {
      var record;
      status', record := ThrownRecord(i, testCase, attempt);
      ThrowStep(tests, atts, results, i, record);
      return true, status', results + [record];
    }
    var passed, record := RanRecord(i, testCase, attempt);
    RanStep(tests, atts, results, i, record, passed);
    status' := if !passed && status == Accepted then WrongAnswer else status;
    return false, status', results + [record];
  }

  /** The iteration at the first throw pushes the last record and fixes the verdict. */
  lemma ThrowStep(tests: seq<TestCase>, atts: seq<Attempt>, results: seq<TestResult>, i: nat, record: TestResult)
    requires |tests| == |atts| && i < |tests| && i <= FirstThrow(atts) && atts[i].Threw?
    requires |results| == i && results == ResultsOf(tests, atts)[..i]
    requires record == ResultFor(i, tests[i], atts[i])
    ensures results + [record] == ResultsOf(tests, atts)
    ensures VerdictOf(tests, atts) == ErrorStatus(atts[i].stderr)
  {
    FirstThrowAt(atts, i);
    AppendResult(tests, atts, results, i, record);
  }

  /** An iteration whose test ran pushes its record and extends the pass condition by one test. */
  lemma RanStep(tests: seq<TestCase>, atts: seq<Attempt>, results: seq<TestResult>, i: nat, record: TestResult, passed: bool)
    requires |tests| == |atts| && i < |tests| && i <= FirstThrow(atts) && atts[i].Ran?
    requires |results| == i && results == ResultsOf(tests, atts)[..i]
    requires record == ResultFor(i, tests[i], atts[i])
    requires passed <==> Matches(atts[i].output, tests[i].output)
    ensures i + 1 <= FirstThrow(atts) <= RunCount(atts)
    ensures results + [record] == ResultsOf(tests, atts)[..i + 1]
    ensures (forall j :: 0 <= j < i + 1 ==> PassedAt(tests, atts, j)) <==>
            (forall j :: 0 <= j < i ==> PassedAt(tests, atts, j)) && passed
  {
    FirstThrowAfter(atts, i);
    AllPassedStep(tests, atts, i);
    AppendResult(tests, atts, results, i, record);
  }

  /** A loop that ran every test without a throw has the specified verdict and results. */
  lemma LoopEnd(tests: seq<TestCase>, atts: seq<Attempt>, results: seq<TestResult>, status: Status)
    requires |tests| == |atts| && Progress(tests, atts, |tests|, status, results)
    ensures results == ResultsOf(tests, atts)
    ensures status == VerdictOf(tests, atts)
  {
    assert RunCount(atts) == |tests|;
  }

  /** The catch block of one iteration: the status the error gives and the record pushed. */
  method ThrownRecord(i: nat, testCase: TestCase, attempt: Attempt) returns (status: Status, record: TestResult)
    requires attempt.Threw?
    ensures status == ErrorStatus(attempt.stderr)
    ensures record == ResultFor(i, testCase, attempt)
  {
    var isTle := Contains(attempt.stderr, TleMarker);
    if isTle {
      status := TimeLimitExceeded;
    } else {
      status := RuntimeError;
    }
    var message := if attempt.stderr != "" then attempt.stderr else "Execution Error";
    record := TestResult(i + 1, false, testCase.input, testCase.output, message, Some(message));
  }

  /** A test that ran: the trimmed comparison and the record pushed. */
  method RanRecord(i: nat, testCase: TestCase, attempt: Attempt) returns (passed: bool, record: TestResult)
    requires attempt.Ran?
    ensures passed <==> Matches(attempt.output, testCase.output)
    ensures record == ResultFor(i, testCase, attempt)
  {
    passed := Trim(attempt.output) == Trim(testCase.output);
    record := TestResult(i + 1, passed, testCase.input, testCase.output, attempt.output, None);
  }

  lemma AllPassedStep(tests: seq<TestCase>, atts: seq<Attempt>, i: nat)
    requires i < |tests| == |atts|
    ensures (forall j :: 0 <= j < i + 1 ==> PassedAt(tests, atts, j)) <==>
            (forall j :: 0 <= j < i ==> PassedAt(tests, atts, j)) && PassedAt(tests, atts, i)
  {
  }

  lemma FirstThrowAt(atts: seq<Attempt>, i: nat)
    requires i <= FirstThrow(atts) && i < |atts| && atts[i].Threw?
    ensures FirstThrow(atts) == i && RunCount(atts) == i + 1
  {
  }

  lemma FirstThrowAfter(atts: seq<Attempt>, i: nat)
    requires i <= FirstThrow(atts) && i < |atts| && atts[i].Ran?
    ensures i + 1 <= FirstThrow(atts) && i + 1 <= RunCount(atts)
  {
  }

  /** Extending the prefix of the recorded results by the next record. */
  lemma AppendResult(tests: seq<TestCase>, atts: seq<Attempt>, results: seq<TestResult>, i: nat, record: TestResult)
    requires |tests| == |atts| && i < RunCount(atts) && |results| == i
    requires results == ResultsOf(tests, atts)[..i]
    requires record == ResultFor(i, tests[i], atts[i])
    ensures results + [record] == ResultsOf(tests, atts)[..i + 1]
  {
    var full := ResultsOf(tests, atts);
    var ext := results + [record];
    forall j | 0 <= j < i + 1 ensures ext[j] == full[..i + 1][j] {
      if j < i {
        assert ext[j] == results[j] == full[..i][j];
      }
    }
  }

  /** One iteration's call: dispatch on the runner, or throw for an unsupported language. */
  method RunTest(sub: Submission, p: Problem, testCase: TestCase, runner: Option<Runner>, exec: Exec) returns (attempt: Attempt)
    requires runner == RunnerForName(LanguageName(sub.language))
    ensures attempt == AttemptOf(sub.language, sub.code, p.timeLimit, testCase, exec)
  {
    if runner.None? {
      return Threw("");
    }
    var settlement := exec(runner.value, sub.code, testCase.input, TimeoutMs(Some(p.timeLimit), runner.value));
    attempt := if settlement.Resolved? then Ran(settlement.stdout) else Threw(settlement.stderr);
  }

  datatype JudgeOutcome =
    | SubmissionMissing                          // findById returned null: nothing is written
    | InternalError                              // something threw: the status is set to 'internal-error'
    | Judged(submission: Submission, problem: Problem)  // the saved submission and the updated problem

  /**
   * `judgeSubmission(submissionId)`. `found` is the lookup of the submission
   * and `populated` the problem its `populate('problem')` produced (None when
   * the referenced problem no longer exists, which makes the handler throw).
   */
  method JudgeSubmission(found: Lookup<Submission>, populated: Option<Problem>, exec: Exec)
    returns (outcome: JudgeOutcome, results: seq<TestResult>)
    ensures found.Missing? ==> outcome == SubmissionMissing && results == []
    ensures found.LookupFailed? || (found.Found? && populated.None?) ==> outcome == InternalError && results == []
    ensures found.Found? && populated.Some? ==>
      && outcome.Judged?
      && outcome.submission.status == VerdictOf(AllTests(populated.value), Attempts(found.doc, populated.value, exec))
      && results == ResultsOf(AllTests(populated.value), Attempts(found.doc, populated.value, exec))
      && outcome.submission == found.doc.(status := outcome.submission.status, testCaseResults := Stored(results))
      && outcome.problem == populated.value.(acceptedCount := populated.value.acceptedCount +
                                               (if outcome.submission.status == Accepted then 1 else 0))
  {
    results := [];
    if found.Missing? {
      return SubmissionMissing, results;
    }
    if found.LookupFailed? || populated.None? {
      return InternalError, results;
    }
    var status;
    status, results := JudgeTests(found.doc, populated.value, exec);
    var saved := found.doc.(status := status, testCaseResults := Stored(results));
    var p := populated.value;
    var updated := if status == Accepted then p.(acceptedCount := p.acceptedCount + 1) else p;
    outcome := Judged(saved, updated);
  }
}
