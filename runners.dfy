/**
 * The three language runners `executeCpp`, `executePython` and `executeJava`.
 *
 * One call of a runner is an `Execution`: its setup stages the files, spawns
 * the shell command and arms the timer; afterwards the child process and the
 * timer deliver events (`Event`) in some order. The file system is a set of
 * paths, the child process and the timer are the sources of the events, and
 * the Promise is the `settled` field: it is settled once, by whichever of the
 * timer and the exec callback acts first.
 *
 * `Variant.Corrected` exists only for the Java runner: it is the runner with
 * the two defects of the Java code repaired (see README, Findings); the C++
 * and Python runners ignore the variant.
 */
module Runners {
  import opened Wrappers
  import opened Staging

  /** How a runner's Promise settles: `resolve(stdout)` or `reject({ stderr })`. */
  datatype Settlement = Resolved(stdout: string) | Rejected(stderr: string)

  /** The `stderr` of the rejection a runner's timer produces. */
  const TleMarker: string := "Time Limit Exceeded"

  /** The `stderr` of the rejection a runner's setup failure produces. */
  const SetupErrorMessage: string := "Internal compiler setup error."

  datatype Runner = Cpp | Python | Java

  /** The `timeoutMs` default of each runner's signature. */
  function DefaultTimeoutMs(r: Runner): nat {
    if r == Java then 10000 else 5000
  }

  /** The staged source: `codes/<id>.cpp`, `codes/<id>.py`, or the fixed `codes/Main.java`. */
  function SourcePath(r: Runner, jobId: string): Path {
    match r
    case Cpp => GenerateFile("cpp", "", jobId).filePath
    case Python => GenerateFile("py", "", jobId).filePath
    case Java => Path(Codes, "Main.java")
  }

  /** The name the input file is staged under: the job id, or `Main` for Java. */
  function InputName(r: Runner, jobId: string): string {
    if r == Java then "Main" else jobId
  }

  function InputPath(r: Runner, jobId: string): Path {
    GenerateInputFile(InputName(r, jobId), None).inputPath
  }

  /** The compiler's output: `codes/<id>.out` for C++, `codes/Main.class` for Java, none for Python. */
  function ArtifactPath(r: Runner, jobId: string): Option<Path> {
    match r
    case Cpp => Some(Path(Codes, jobId + ".out"))
    case Python => None
    case Java => Some(Path(Codes, "Main.class"))
  }

  /** Every path one execution may create. */
  function StagedPaths(r: Runner, jobId: string): set<Path> {
    {SourcePath(r, jobId), InputPath(r, jobId)} +
    (if ArtifactPath(r, jobId).Some? then {ArtifactPath(r, jobId).value} else {})
  }

  /** What is written into the staged source: C++ and Python un-escape, Java writes the raw code. */
  function WrittenSource(r: Runner, code: string): string {
    if r == Java then code else GenerateFile(if r == Cpp then "cpp" else "py", code, "").written
  }

  /**
   * Code whose `<`, `>`, `"`, `'` and `&` arrive as HTML entities is decoded
   * back by the C++ and Python runners; the Java runner writes the entities
   * themselves into `Main.java`.
   */
  lemma OnlyJavaWritesRaw(code: string)
    ensures WrittenSource(Cpp, Escape(code)) == code
    ensures WrittenSource(Python, Escape(code)) == code
    ensures WrittenSource(Java, Escape(code)) == Escape(code)
  {
    EscapeRoundTrip(code);
  }

  /** One step of the shell command: a program, its arguments as paths, and an optional stdin redirection. */
  datatype Step = Invoke(program: string, args: seq<Path>, stdin: Option<Path>)

  /** The shell command, as the list of steps joined by `&&`. */
  function Command(r: Runner, jobId: string): seq<Step> {
    match r
    case Cpp =>
      [Invoke("g++", [SourcePath(r, jobId), ArtifactPath(r, jobId).value], None),
       Invoke("<binary>", [ArtifactPath(r, jobId).value], Some(InputPath(r, jobId)))]
    case Python => [Invoke("python3", [SourcePath(r, jobId)], Some(InputPath(r, jobId)))]
    case Java =>
      [Invoke("javac", [SourcePath(r, jobId)], None),
       Invoke("java -cp codes Main", [], Some(InputPath(r, jobId)))]
  }

  /**
   * The command runs the staged program on the staged input: its last step
   * reads the input file; C++ and Java compile first, Python has no
   * compile step and runs the interpreter on the source itself.
   */
  lemma CommandShape(r: Runner, jobId: string)
    ensures var c := Command(r, jobId);
      && |c| == (if r == Python then 1 else 2)
      && c[|c| - 1].stdin == Some(InputPath(r, jobId))
      && (r == Python ==> c[0].program == "python3" && c[0].args == [SourcePath(r, jobId)])
      && (r != Python ==> c[0].stdin == None && SourcePath(r, jobId) in c[0].args)
      && (r == Cpp ==> c[1].args == [ArtifactPath(r, jobId).value] && ArtifactPath(r, jobId).value in c[0].args)
  {
  }

  /**
   * The C++ binary sits beside its source as `<id>.out`, and the input file
   * is staged under the same id in the inputs directory.
   */
  lemma CppLayout(jobId: string)
    ensures SourcePath(Cpp, jobId) == Path(Codes, jobId + ".cpp")
    ensures ArtifactPath(Cpp, jobId) == Some(Path(SourcePath(Cpp, jobId).dir, jobId + ".out"))
    ensures InputPath(Cpp, jobId) == Path(Inputs, jobId + ".txt")
    ensures |StagedPaths(Cpp, jobId)| == 3
  {
    var src, inp, out := SourcePath(Cpp, jobId), InputPath(Cpp, jobId), ArtifactPath(Cpp, jobId).value;
    assert src.name == jobId + ".cpp";
    assert src.name[|jobId| + 1] == 'c' && out.name[|jobId| + 1] == 'o';
    assert StagedPaths(Cpp, jobId) == {src, inp, out};
  }

  /**
   * Concurrent C++ or Python executions with distinct job ids cannot touch
   * each other's files; every Java execution uses the same three paths.
   */
  lemma StagingIsolation(r: Runner, id1: string, id2: string)
    ensures r != Java && id1 != id2 ==> StagedPaths(r, id1) !! StagedPaths(r, id2)
    ensures r == Java ==> StagedPaths(r, id1) == StagedPaths(r, id2)
  {
    if r != Java && id1 != id2 {
      var fmt := if r == Cpp then "cpp" else "py";
      SourceNamesInjective(fmt, id1, id2);
      InputPathProperties(id1, id2, None, None, fmt, "");
      InputPathProperties(id2, id1, None, None, fmt, "");
      if r == Cpp {
        forall a, b | a in StagedPaths(r, id1) && b in StagedPaths(r, id2) ensures a != b {
          if a == b && a.dir == Codes {
            SuffixCases(id1, id2, a.name);
          }
        }
      }
    }
  }

  /** `<a>.cpp`/`<a>.out` and `<b>.cpp`/`<b>.out` coincide only when `a == b`. */
  lemma SuffixCases(id1: string, id2: string, name: string)
    requires name == id1 + ".cpp" || name == id1 + ".out"
    requires name == id2 + ".cpp" || name == id2 + ".out"
    ensures id1 == id2
  {
    assert |id1| == |id2|;
    assert id1 == name[..|id1|];
    assert id2 == name[..|id2|];
  }

  /** The rule each exec callback applies to `(error, stdout, stderr)`. */
  function Decide(r: Runner, error: Option<string>, stdout: string, stderr: string): (s: Settlement)
    ensures error.Some? ==> s == Rejected(if stderr != "" then stderr else error.value)
    ensures error.None? && r != Java ==> (s.Resolved? <==> stderr == "")
    ensures error.None? && r == Java ==> (s.Resolved? <==> stderr == "" || stdout != "")
    ensures s.Resolved? ==> s.stdout == stdout
    ensures s.Rejected? && error.None? ==> s.stderr == stderr
  {
    if error.Some? then Rejected(if stderr != "" then stderr else error.value)
    else if r != Java && stderr != "" then Rejected(stderr)
    else if r == Java && stderr != "" && stdout == "" then Rejected(stderr)
    else Resolved(stdout)
  }

  /**
   * The runners disagree only on a clean exit that wrote to stderr: C++ and
   * Python reject it, Java resolves it when it also wrote to stdout.
   */
  lemma StrictAndLenient(stdout: string, stderr: string)
    requires stderr != ""
    ensures Decide(Cpp, None, stdout, stderr) == Rejected(stderr)
    ensures Decide(Python, None, stdout, stderr) == Rejected(stderr)
    ensures stdout != "" ==> Decide(Java, None, stdout, stderr) == Resolved(stdout)
    ensures stdout == "" ==> Decide(Java, None, stdout, stderr) == Rejected(stderr)
  {
  }

  /** Setup may throw at one of its three stages. */
  datatype SetupStage = WriteSource | WriteInput | Spawn

  /** The events that reach an execution once its setup is over. */
  datatype Event =
    | Compiled                  // the compiler wrote its output file
    | Exit                      // the child's 'exit' event, whose handler clears the timer
    | TimerFires                // the setTimeout callback
    | Done(error: Option<string>, stdout: string, stderr: string)  // the exec callback

  /**
   * The variables of one runner invocation: the file system, the outer `let`
   * paths as the catch block sees them, the state of the child and the timer,
   * and the Promise.
   */
  datatype RunState = RunState(
    fs: set<Path>,
    filePath: Option<Path>,
    inputPath: Option<Path>,
    artifactPath: Option<Path>,
    spawned: bool,
    timerArmed: bool,
    exited: bool,
    callbackDone: bool,
    killed: bool,
    settled: Option<Settlement>)

  /** `safeResolve`/`safeReject`: only the first settlement takes effect. */
  function Settle(settled: Option<Settlement>, v: Settlement): (r: Option<Settlement>)
    ensures settled.Some? ==> r == settled
    ensures settled.None? ==> r == Some(v)
  {
    if settled.None? then Some(v) else settled
  }

  /** `if (p && fs.existsSync(p)) fs.unlinkSync(p)`. */
  function Unlink(fs: set<Path>, p: Option<Path>): (r: set<Path>)
    ensures p.None? ==> r == fs
    ensures p.Some? ==> r == fs - {p.value}
  {
    if p.Some? then fs - {p.value} else fs
  }

  /** Whether the catch block can see the path of the staged source (Java's inner `const` hides it). */
  function CatchSeesSource(r: Runner, v: Variant): bool {
    r != Java || v == Corrected
  }

  /** Whether the timer settles the Promise with the TLE marker (Java's timer only kills). */
  function TimerSettles(r: Runner, v: Variant): bool {
    r != Java || v == Corrected
  }

  /** The catch block: delete what the outer variables name, then `reject` with the setup message. */
  function SetupFailed(st: RunState): RunState {
    var fs := Unlink(Unlink(Unlink(st.fs, st.filePath), st.inputPath), st.artifactPath);
    st.(fs := fs, settled := Some(Rejected(SetupErrorMessage)))
  }

  /** The Promise executor up to the return of its try block, or through its catch block. */
  function Setup(r: Runner, v: Variant, jobId: string, fs0: set<Path>, failAt: Option<SetupStage>): RunState {
    var st0 := RunState(fs0, None, None, None, false, false, false, false, false, None);
    if failAt == Some(WriteSource) then SetupFailed(st0)
    else
      var src := SourcePath(r, jobId);
      var st1 := st0.(fs := fs0 + {src},
                      filePath := if CatchSeesSource(r, v) then Some(src) else None,
                      artifactPath := ArtifactPath(r, jobId));
      if failAt == Some(WriteInput) then SetupFailed(st1)
      else
        var st2 := st1.(fs := st1.fs + {InputPath(r, jobId)}, inputPath := Some(InputPath(r, jobId)));
        if failAt == Some(Spawn) then SetupFailed(st2)
        else st2.(spawned := true, timerArmed := true)
  }

  /** The paths the exec callback deletes, whatever the catch block could see. */
  function CallbackPaths(r: Runner, jobId: string): set<Path> {
    StagedPaths(r, jobId)
  }

  /** The effect of one event on an execution. */
  function StepEvent(r: Runner, v: Variant, jobId: string, st: RunState, e: Event): RunState {
    match e
    case Compiled =>
      if st.spawned && !st.exited && !st.callbackDone && ArtifactPath(r, jobId).Some?
      then st.(fs := st.fs + {ArtifactPath(r, jobId).value}) else st
    case Exit =>
      if st.spawned && !st.exited then st.(exited := true, timerArmed := false) else st
    case TimerFires =>
      if !st.timerArmed then st
      else if TimerSettles(r, v)
      then st.(timerArmed := false, killed := true, settled := Settle(st.settled, Rejected(TleMarker)))
      else st.(timerArmed := false, killed := true)
    case Done(error, stdout, stderr) =>
      if !st.spawned || st.callbackDone then st
      else st.(callbackDone := true, fs := st.fs - CallbackPaths(r, jobId),
               settled := Settle(st.settled, Decide(r, error, stdout, stderr)))
  }

  function Run(r: Runner, v: Variant, jobId: string, st: RunState, events: seq<Event>): RunState
    decreases |events|
  {
    if events == [] then st
    else Run(r, v, jobId, StepEvent(r, v, jobId, st, events[0]), events[1..])
  }

  lemma RunAppend(r: Runner, v: Variant, jobId: string, st: RunState, events: seq<Event>, e: Event)
    ensures Run(r, v, jobId, st, events + [e]) == StepEvent(r, v, jobId, Run(r, v, jobId, st, events), e)
    decreases |events|
  {
    if events != [] {
      assert (events + [e])[1..] == events[1..] + [e];
      RunAppend(r, v, jobId, StepEvent(r, v, jobId, st, events[0]), events[1..], e);
    }
  }

  /** A settled Promise never changes, whatever event comes next. */
  lemma StepKeepsSettlement(r: Runner, v: Variant, jobId: string, st: RunState, e: Event)
    requires st.settled.Some?
    ensures StepEvent(r, v, jobId, st, e).settled == st.settled
  {
  }

  /** At most one settlement: once settled, no later sequence of events changes the outcome. */
  lemma {:induction false} SettlesAtMostOnce(r: Runner, v: Variant, jobId: string, st: RunState, events: seq<Event>)
    requires st.settled.Some?
    ensures Run(r, v, jobId, st, events).settled == st.settled
    decreases |events|
  {
    if events != [] {
      StepKeepsSettlement(r, v, jobId, st, events[0]);
      SettlesAtMostOnce(r, v, jobId, StepEvent(r, v, jobId, st, events[0]), events[1..]);
    }
  }

  /**
   * The first exec callback of a spawned, unsettled execution settles it, with
   * the runner's rule applied to what the process reported.
   */
  lemma CallbackSettles(r: Runner, v: Variant, jobId: string, st: RunState, error: Option<string>, stdout: string, stderr: string)
    requires st.spawned && !st.callbackDone && st.settled.None?
    ensures StepEvent(r, v, jobId, st, Done(error, stdout, stderr)).settled == Some(Decide(r, error, stdout, stderr))
  {
  }

  /**
   * The timeout wins if it fires first: for C++, Python (and the corrected
   * Java runner) the outcome is the TLE rejection, whatever the process
   * reports afterwards.
   */
  lemma TimeoutWinsIfFirst(r: Runner, v: Variant, jobId: string, st: RunState, later: seq<Event>)
    requires TimerSettles(r, v)
    requires st.timerArmed && st.settled.None?
    ensures Run(r, v, jobId, st, [TimerFires] + later).settled == Some(Rejected(TleMarker))
  {
    var st1 := StepEvent(r, v, jobId, st, TimerFires);
    assert ([TimerFires] + later)[1..] == later;
    SettlesAtMostOnce(r, v, jobId, st1, later);
  }

  /** The Java timer only kills the process: it never settles the Promise. */
  lemma JavaTimerNeverSettles(jobId: string, st: RunState)
    ensures StepEvent(Java, AsWritten, jobId, st, TimerFires).settled == st.settled
  {
  }

  /** The exec callback deletes every staged path, before and whatever it settles. */
  lemma CallbackCleansUp(r: Runner, v: Variant, jobId: string, st: RunState, error: Option<string>, stdout: string, stderr: string)
    requires st.spawned && !st.callbackDone
    ensures StepEvent(r, v, jobId, st, Done(error, stdout, stderr)).fs == st.fs - StagedPaths(r, jobId)
    ensures StepEvent(r, v, jobId, st, Done(error, stdout, stderr)).settled.Some?
  {
  }

  /**
   * The timeout settles before anything is deleted: right after the timer
   * fires, the Promise is rejected while the staged files are still there.
   */
  lemma TimeoutSettlesBeforeCleanup(r: Runner, v: Variant, jobId: string, st: RunState)
    requires TimerSettles(r, v) && st.timerArmed && st.settled.None?
    ensures StepEvent(r, v, jobId, st, TimerFires).settled == Some(Rejected(TleMarker))
    ensures StepEvent(r, v, jobId, st, TimerFires).fs == st.fs
  {
  }

  /** A failed setup rejects with the setup message and leaves no child and no timer. */
  lemma SetupFailureRejects(r: Runner, v: Variant, jobId: string, fs0: set<Path>, stage: SetupStage)
    ensures Setup(r, v, jobId, fs0, Some(stage)).settled == Some(Rejected(SetupErrorMessage))
    ensures !Setup(r, v, jobId, fs0, Some(stage)).spawned
    ensures !Setup(r, v, jobId, fs0, Some(stage)).timerArmed
  {
  }

  /**
   * A failed setup of the C++ or Python runner (or of the corrected Java
   * runner) leaves the file system as it found it, when the job's paths were
   * fresh.
   */
  lemma SetupFailureCleansUp(r: Runner, v: Variant, jobId: string, fs0: set<Path>, stage: SetupStage)
    requires CatchSeesSource(r, v)
    requires StagedPaths(r, jobId) !! fs0
    ensures Setup(r, v, jobId, fs0, Some(stage)).fs == fs0
  {
    var src, inp := SourcePath(r, jobId), InputPath(r, jobId);
    assert src !in fs0 && inp !in fs0;
    var art := ArtifactPath(r, jobId);
    assert art.Some? ==> art.value !in fs0;
  }

  /**
   * As written, a failed Java setup leaks the staged source: the catch block
   * reads the outer `filePath`, which the inner `const` declaration shadowed,
   * so `codes/Main.java` survives a failure to stage the input or to spawn.
   */
  lemma JavaSetupLeak(fs0: set<Path>, stage: SetupStage)
    requires stage != WriteSource
    requires StagedPaths(Java, "") !! fs0
    ensures Path(Codes, "Main.java") !in fs0
    ensures Path(Codes, "Main.java") in Setup(Java, AsWritten, "", fs0, Some(stage)).fs
  {
    assert Path(Codes, "Main.java") in StagedPaths(Java, "");
  }

  /**
   * As written, a timed-out Java run does not report a TLE: the timer kills
   * the process, and the exec callback then rejects with the kill error's
   * message, which carries no TLE marker.
   */
  lemma JavaTimeoutNotTle(fs0: set<Path>, message: string)
    requires message != TleMarker
    ensures Run(Java, AsWritten, "", Setup(Java, AsWritten, "", fs0, None),
                [TimerFires, Exit, Done(Some(message), "", "")]).settled == Some(Rejected(message))
  {
    var st0 := Setup(Java, AsWritten, "", fs0, None);
    var st1 := StepEvent(Java, AsWritten, "", st0, TimerFires);
    assert st1.settled.None? && st1.spawned && !st1.callbackDone;
    var st2 := StepEvent(Java, AsWritten, "", st1, Exit);
    var st3 := StepEvent(Java, AsWritten, "", st2, Done(Some(message), "", ""));
    assert st3.settled == Some(Rejected(message));
    var evs := [TimerFires, Exit, Done(Some(message), "", "")];
    assert evs[1..] == [Exit, Done(Some(message), "", "")];
    assert evs[1..][1..] == [Done(Some(message), "", "")];
    assert Run(Java, AsWritten, "", st2, evs[1..][1..]) == st3;
    assert Run(Java, AsWritten, "", st1, evs[1..]) == st3;
  }

  /** A successful setup has spawned the child, armed the timer and staged exactly source and input. */
  lemma SetupSuccess(r: Runner, v: Variant, jobId: string, fs0: set<Path>)
    ensures var st := Setup(r, v, jobId, fs0, None);
      && st.spawned && st.timerArmed && !st.exited && !st.callbackDone && st.settled.None?
      && st.fs == fs0 + {SourcePath(r, jobId), InputPath(r, jobId)}
  {
  }

  /** Between setup and the end: only the staged paths ever differ from the initial file system. */
  ghost predicate Bounded(r: Runner, jobId: string, fs0: set<Path>, st: RunState) {
    && (st.callbackDone ==> st.fs == fs0)
    && (!st.callbackDone ==> fs0 <= st.fs <= fs0 + StagedPaths(r, jobId))
    && (st.callbackDone ==> st.spawned && st.settled.Some?)
  }

  lemma {:induction false} RunBounded(r: Runner, v: Variant, jobId: string, fs0: set<Path>, st: RunState, events: seq<Event>)
    requires StagedPaths(r, jobId) !! fs0
    requires Bounded(r, jobId, fs0, st)
    ensures Bounded(r, jobId, fs0, Run(r, v, jobId, st, events))
    ensures st.callbackDone ==> Run(r, v, jobId, st, events).callbackDone
    ensures st.spawned ==> Run(r, v, jobId, st, events).spawned
    decreases |events|
  {
    if events != [] {
      var st1 := StepEvent(r, v, jobId, st, events[0]);
      assert Bounded(r, jobId, fs0, st1) by {
        if events[0].Compiled? && st1 != st {
          assert ArtifactPath(r, jobId).value in StagedPaths(r, jobId);
        }
      }
      RunBounded(r, v, jobId, fs0, st1, events[1..]);
    }
  }

  /**
   * No staged artifact outlives the exec callback: for any order of events
   * after a successful setup with fresh paths, once the callback has run the
   * file system is exactly what it was before the execution, and the Promise
   * is settled.
   */
  lemma NoArtifactOutlivesCallback(r: Runner, v: Variant, jobId: string, fs0: set<Path>,
                                   before: seq<Event>, error: Option<string>, stdout: string, stderr: string, after: seq<Event>)
    requires StagedPaths(r, jobId) !! fs0
    ensures var st := Run(r, v, jobId, Setup(r, v, jobId, fs0, None), before + [Done(error, stdout, stderr)] + after);
      st.fs == fs0 && st.settled.Some?
  {
    var st0 := Setup(r, v, jobId, fs0, None);
    RunBounded(r, v, jobId, fs0, st0, before);
    var mid := Run(r, v, jobId, st0, before);
    RunAppend(r, v, jobId, st0, before, Done(error, stdout, stderr));
    var st1 := Run(r, v, jobId, st0, before + [Done(error, stdout, stderr)]);
    assert st1.callbackDone && st1.settled.Some?;
    assert st1.fs == fs0 by {
      if !mid.callbackDone {
        assert st1.fs == mid.fs - StagedPaths(r, jobId);
      }
    }
    RunBounded(r, v, jobId, fs0, st1, after);
    SettlesAtMostOnce(r, v, jobId, st1, after);
    RunSplit(r, v, jobId, st0, before + [Done(error, stdout, stderr)], after);
  }

  lemma {:induction false} RunSplit(r: Runner, v: Variant, jobId: string, st: RunState, xs: seq<Event>, ys: seq<Event>)
    ensures Run(r, v, jobId, st, xs + ys) == Run(r, v, jobId, Run(r, v, jobId, st, xs), ys)
    decreases |xs|
  {
    if xs == [] {
      assert xs + ys == ys;
    } else {
      assert (xs + ys)[1..] == xs[1..] + ys;
      RunSplit(r, v, jobId, StepEvent(r, v, jobId, st, xs[0]), xs[1..], ys);
    }
  }

  /**
   * One invocation of a runner, updated in place the way the Promise executor
   * and its callbacks update their closure variables.
   */
  class Execution {
    const runner: Runner
    const variant: Variant
    const jobId: string
    var fs: set<Path>
    var filePath: Option<Path>
    var inputPath: Option<Path>
    var artifactPath: Option<Path>
    var spawned: bool
    var timerArmed: bool
    var exited: bool
    var callbackDone: bool
    var killed: bool
    var settled: Option<Settlement>

    function State(): RunState
      reads this
    {
      RunState(fs, filePath, inputPath, artifactPath, spawned, timerArmed, exited, callbackDone, killed, settled)
    }

    /** The Promise executor: staging, spawning and arming the timer, or the catch block. */
    constructor (r: Runner, v: Variant, id: string, fs0: set<Path>, failAt: Option<SetupStage>)
      ensures runner == r && variant == v && jobId == id
      ensures State() == Setup(r, v, id, fs0, failAt)
    {
      runner, variant, jobId := r, v, id;
      fs := fs0;
      filePath, inputPath, artifactPath := None, None, None;
      spawned, timerArmed, exited, callbackDone, killed := false, false, false, false, false;
      settled := None;
      new;
      if failAt == Some(WriteSource) {
        CatchBlock();
        return;
      }
      StageSource();
      if failAt == Some(WriteInput) {
        CatchBlock();
        return;
      }
      StageInput();
      ghost var st2 := State();
      if failAt == Some(Spawn) {
        CatchBlock();
        assert State() == SetupFailed(st2);
        return;
      }
      spawned, timerArmed := true, true;
    }

    /** `generateFile` (or the inline write for Java): the source is written and the outer paths assigned. */
    method StageSource()
      modifies this
      ensures State() == old(State()).(fs := old(fs) + {SourcePath(runner, jobId)},
                                       filePath := if CatchSeesSource(runner, variant) then Some(SourcePath(runner, jobId)) else old(filePath),
                                       artifactPath := ArtifactPath(runner, jobId))
    {
      var src := SourcePath(runner, jobId);
      fs := fs + {src};
      if CatchSeesSource(runner, variant) {
        filePath := Some(src);
      }
      artifactPath := ArtifactPath(runner, jobId);
    }

    /** `generateInputFile`: the input is written and `inputPath` assigned. */
    method StageInput()
      modifies this
      ensures State() == old(State()).(fs := old(fs) + {InputPath(runner, jobId)}, inputPath := Some(InputPath(runner, jobId)))
    {
      var input := InputPath(runner, jobId);
      fs := fs + {input};
      inputPath := Some(input);
    }

    /** `if (p && fs.existsSync(p)) fs.unlinkSync(p)`. */
    method UnlinkIfExists(p: Option<Path>)
      modifies this
      ensures fs == Unlink(old(fs), p)
      ensures State() == old(State()).(fs := fs)
    {
      if p.Some? && p.value in fs {
        fs := fs - {p.value};
      }
    }

    method SafeResolve(out: string)
      modifies this
      ensures State() == old(State()).(settled := Settle(old(settled), Resolved(out)))
    {
      if settled.None? {
        settled := Some(Resolved(out));
      }
    }

    method SafeReject(err: string)
      modifies this
      ensures State() == old(State()).(settled := Settle(old(settled), Rejected(err)))
    {
      if settled.None? {
        settled := Some(Rejected(err));
      }
    }

    method CatchBlock()
      modifies this
      ensures State() == SetupFailed(old(State()))
    {
      UnlinkIfExists(filePath);
      UnlinkIfExists(inputPath);
      UnlinkIfExists(artifactPath);
      settled := Some(Rejected(SetupErrorMessage));
    }

    method OnCompiled()
      modifies this
      ensures State() == StepEvent(runner, variant, jobId, old(State()), Compiled)
    {
      if spawned && !exited && !callbackDone && ArtifactPath(runner, jobId).Some? {
        fs := fs + {ArtifactPath(runner, jobId).value};
      }
    }

    /** The 'exit' handler: `clearTimeout(timeout)`. */
    method OnExit()
      modifies this
      ensures State() == StepEvent(runner, variant, jobId, old(State()), Exit)
    {
      if spawned && !exited {
        exited := true;
        timerArmed := false;
      }
    }

    /** The timer callback: kill the child and, except in the Java runner, reject with the marker. */
    method OnTimer()
      modifies this
      ensures State() == StepEvent(runner, variant, jobId, old(State()), TimerFires)
    {
      if timerArmed {
        timerArmed := false;
        killed := true;
        if TimerSettles(runner, variant) {
          SafeReject(TleMarker);
        }
      }
    }

    /** The exec callback: delete the staged files, then apply the runner's rule. */
    method OnDone(error: Option<string>, stdout: string, stderr: string)
      modifies this
      ensures State() == StepEvent(runner, variant, jobId, old(State()), Done(error, stdout, stderr))
    {
      if !spawned || callbackDone {
        return;
      }
      callbackDone := true;
      UnlinkIfExists(Some(SourcePath(runner, jobId)));
      UnlinkIfExists(Some(InputPath(runner, jobId)));
      UnlinkIfExists(ArtifactPath(runner, jobId));
      assert fs == old(fs) - CallbackPaths(runner, jobId);
      if error.Some? {
        SafeReject(if stderr != "" then stderr else error.value);
      } else if runner != Java && stderr != "" {
        SafeReject(stderr);
      } else if runner == Java && stderr != "" && stdout == "" {
        SafeReject(stderr);
      } else {
        SafeResolve(stdout);
      }
    }

    method Deliver(e: Event)
      modifies this
      ensures State() == StepEvent(runner, variant, jobId, old(State()), e)
    {
      match e
      case Compiled => OnCompiled();
      case Exit => OnExit();
      case TimerFires => OnTimer();
      case Done(error, stdout, stderr) => OnDone(error, stdout, stderr);
    }
  }

  /**
   * A runner invocation driven by a given order of events. Returns how the
   * Promise settled (None if it is still pending) and the file system after.
   */
  method Execute(r: Runner, v: Variant, jobId: string, fs0: set<Path>, failAt: Option<SetupStage>, events: seq<Event>)
    returns (outcome: Option<Settlement>, fsAfter: set<Path>)
    ensures outcome == Run(r, v, jobId, Setup(r, v, jobId, fs0, failAt), events).settled
    ensures fsAfter == Run(r, v, jobId, Setup(r, v, jobId, fs0, failAt), events).fs
  {
    var ex := new Execution(r, v, jobId, fs0, failAt);
    var i := 0;
    while i < |events|
      invariant 0 <= i <= |events|
      invariant ex.runner == r && ex.variant == v && ex.jobId == jobId
      invariant ex.State() == Run(r, v, jobId, Setup(r, v, jobId, fs0, failAt), events[..i])
    {
      RunAppend(r, v, jobId, Setup(r, v, jobId, fs0, failAt), events[..i], events[i]);
      assert events[..i + 1] == events[..i] + [events[i]];
      ex.Deliver(events[i]);
      i := i + 1;
    }
    assert events[..i] == events;
    outcome, fsAfter := ex.settled, ex.fs;
  }
}
