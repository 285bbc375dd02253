# Verdakra online judge — a verified model of its backend core

Verdakra is an online judge with a Node/Express backend and a MongoDB store.
Users submit programs in C++, Python or Java. A judge stages each program in
a scratch directory, runs it in a child process under a timer against the
problem's test cases, and records a verdict. Around that sit:
- contests, with registration, time windows and a points leaderboard;
- a best-submission leaderboard per problem;
- a per-user dashboard (solved count, progress, rank, day streak);
- CORS and authentication middleware;
- two maintenance scripts that repair or delete submissions whose problem
  reference is broken.

This project models that core in Dafny and proves what the code promises.

Modules (one per file):

| file | module | models |
|---|---|---|
| wrappers.dfy | `Wrappers` | `Option`, the three outcomes of a Mongo lookup (`Found`, `Missing`, `LookupFailed` for a cast error), `Variant` (code as written / corrected) |
| seqs.dfy | `Seqs` | filter, count, distinct, map, an insertion sort by a two-part key, proved stable |
| strings.dfy | `Strings` | `trim`, `toLowerCase`, `split(' ')`, `includes`, global `replace` |
| pagination.dfy | `Pagination` | `page`/`limit` query defaults, `skip`/`limit` windows, `Math.ceil` page counts |
| models.dfy | `Models` | the Submission, Problem and Contest schemas: enums, defaults, the `status` and `durationMinutes` virtuals, `acceptanceRate` |
| staging.dfy | `Staging` | `generateFile` (entity decoding, `sanitizeJobId`, file names) and `generateInputFile` |
| runners.dfy | `Runners` | `executeCpp`, `executePython`, `executeJava` as a settle-once state machine driven by process and timer events, with a file system of paths |
| judge.dfy | `Judge` | `judgeSubmission`: the verdict loop over all test cases and the `acceptedCount` update |
| run_controller.dfy | `RunController` | `runCode`: the custom-input run and the two-sample run |
| contests.dfy | `Contests` | `getAllContests` filters and paging, `getSingleContest` gating, `registerContest` |
| leaderboard.dfy | `ContestLeaderboard` | `getContestLeaderboard`: the scoring fold over submissions and the two-key sort |
| submissions.dfy | `Submissions` | the submission list handlers, view permission, and create/edit/delete with problem counters |
| problems.dfy | `Problems` | problem listing, read/edit/delete permissions, slug regeneration, the problem leaderboard, solved problems |
| dashboard.dfy | `Dashboard` | `getDashboardStats` |
| middleware.dfy | `Middleware` | the CORS origin check, `handlePreflight`, `securityHeaders`, `protect`, `restrictTo`, `isCreatorOrAdmin` |
| scripts.dfy | `Scripts` | `cleanupSubmissions.js` and `deleteBrokenSubmissions.js` |

How the program's form carries over:
- Pure code (schemas, predicates, pipelines) becomes datatypes, functions and lemmas.
- Code that mutates state becomes imperative Dafny, with each method proved against a specification function:
  - The runners' closure variables are fields of the `Runners.Execution` class.
  - The judge, run, leaderboard, progress, streak and script loops are `while`/`for` loops with invariants.
  - The collections the controllers update are `map` fields of `Contests.ContestStore` and `Submissions.SubmissionStore`.
  - The Express response is `Middleware.Response`.
  - `cleanupSubmissions` rewrites an `array` of submissions in place.
- Mongo collections are sequences (in the order a query returns them) or maps from id to document.
- Time is an integer number of milliseconds, and "now" is a parameter.
- These are parameters: the child process and the timer (as events), `jwt.verify` and `slugify` (as functions), and the result of each lookup.

Where the code has a defect, the model holds both the code as written and the
corrected behaviour, selected by `Variant`. The rest of the model relies on
the corrected one (see Findings).

## Model

| member | source | states |
|---|---|---|
| Models.ParseStatus | Backend/models/Submission.js:29-33 | a parsed status names exactly the string it was parsed from; strings outside the eight-value enum are rejected |
| Models.StatusRoundTrip | Backend/models/Submission.js:29-33 | every status parses back from its name |
| Models.InternalErrorOutsideEnum | Backend/code-execution/judge.js:91 | the `'internal-error'` status the judge writes on failure is not one of the enum's values |
| Models.ParseLanguage | Backend/models/Submission.js:20-24 | a parsed language names exactly its string; anything outside c, cpp, java, python, javascript is rejected |
| Models.LanguageRoundTrip | Backend/models/Submission.js:20-24 | every language parses back from its name |
| Models.NewSubmission | Backend/models/Submission.js:29-58 | a new submission is pending with no results, its time and memory are 0, it is public unless told otherwise, and it is submitted at "now" |
| Models.ParseDifficulty | Backend/models/Problem.js:22-26 | a parsed difficulty names exactly its string; anything but easy, medium, hard is rejected |
| Models.DifficultyRoundTrip | Backend/models/Problem.js:22-26 | every difficulty parses back from its name |
| Models.NewProblem | Backend/models/Problem.js:56-83 | a new problem's timeLimit defaults to 1000, memoryLimit to 256 and isPublic to true; both counters start at 0 |
| Models.AcceptanceRate | Backend/models/Problem.js:92-94 | the rate is 0 when there are no submissions, and lies in [0, 100] when accepted ≤ submitted |
| Models.ParseVisibility | Backend/models/Contest.js:44-48 | a missing visibility is public; a given one must be one of the three names |
| Models.VisibilityRoundTrip | Backend/models/Contest.js:44-48 | every visibility parses back from its name |
| Models.ValidatePoints | Backend/models/Contest.js:37-41 | points are accepted iff they are at least 0, and kept unchanged |
| Models.Loaded | Backend/models/Contest.js:49-52 | a contest as a plain query loads it has no password, and nothing else differs |
| Models.StatusAt | Backend/models/Contest.js:73-78 | the `status` virtual names exactly one phase: upcoming iff now < start, ongoing iff start ≤ now ≤ end, completed iff start ≤ now and end < now |
| Models.StatusMonotone | Backend/models/Contest.js:73-78 | as time passes a completed contest stays completed, and an upcoming one was upcoming before |
| Models.DurationMinutes | Backend/models/Contest.js:81-83 | the duration is the ceiling of the length in minutes: (m-1)·60000 < end-start ≤ m·60000 |
| Models.DurationExact | Backend/models/Contest.js:81-83 | a whole number of minutes gives exactly that number, and one millisecond more rounds up |
| Pagination.QueryInt | Backend/controllers/contestController.js:11-12 | a query number is its value, or the default when it is absent or 0 (falsy); a non-zero default never yields 0 |
| Pagination.FloorDiv | Backend/controllers/dashboardController.js:78-89 | the floor quotient q satisfies q·b ≤ a < (q+1)·b (for b > 0) |
| Pagination.CeilDiv | Backend/controllers/contestController.js:47 | the `Math.ceil` quotient q satisfies (q-1)·b < a ≤ q·b (for b > 0) |
| Pagination.TotalPages | Backend/controllers/contestController.js:47 | totalPages is the least n with total ≤ n·limit |
| Pagination.Window | Backend/controllers/contestController.js:13-39 | `skip((page-1)*limit).limit(limit)` fails for a negative skip; otherwise it holds exactly `PageLength` items (|limit| of them, fewer on the last page, none past it), item j being the match at position skip+j |
| Pagination.PageOfIndex | Backend/controllers/contestController.js:13-39 | for a positive limit, item i appears on page i/limit+1, at position i mod limit |
| Strings.TrimSpec | Backend/code-execution/judge.js:42 | `trim` removes exactly the leading and trailing whitespace: the result is an inner slice with no whitespace at either end |
| Strings.TrimSlice | Backend/code-execution/judge.js:42 | the trimmed text is the slice of the input that starts after its leading whitespace |
| Strings.TrimTail | Backend/code-execution/judge.js:42 | everything after the trimmed slice is whitespace |
| Strings.TrimEnds | Backend/code-execution/judge.js:42 | a non-empty trimmed text starts and ends with a non-whitespace character; an empty one means the whole input was leading whitespace |
| Strings.TrimIdempotent | Backend/code-execution/judge.js:42 | trimming twice is trimming once |
| Strings.ToLower | Backend/code-execution/judge.js:28 | `toLowerCase` keeps the length and lowers each character (ASCII capitals to small letters) |
| Strings.ToLowerIdempotent | Backend/code-execution/judge.js:28 | lowering twice is lowering once |
| Strings.Utf16Length | Backend/models/Problem.js:9 | `length` counts UTF-16 units: between one and two per character, exactly one each iff no character is above U+FFFF, two each iff all are |
| Strings.ContainsAt | Backend/code-execution/judge.js:57 | `includes` holds whenever the pattern occurs at some index |
| Strings.Split | Backend/middleware/auth.js:11 | `split(' ')` gives at least one field, no field holds the separator, and joining the fields gives the input back |
| Strings.SplitJoin | Backend/middleware/auth.js:11 | fields without the separator, joined, split back into the same fields |
| Strings.ReplaceAll | Backend/code-execution/generateFile.js:20 | a global replace with a non-empty pattern changes nothing when the pattern does not occur |
| Staging.ClassChar | Backend/code-execution/generateFile.js:11-14 | each character maps to itself when alphanumeric, otherwise to `_` |
| Staging.SanitizeJobId | Backend/code-execution/generateFile.js:11-14 | the class name is `Class_` then the id with each non-alphanumeric replaced by `_`; its length is 6 + the id's, and it holds only alphanumerics and `_` |
| Staging.SanitizeAlnumId | Backend/code-execution/generateFile.js:11-14 | an alphanumeric id is only prefixed |
| Staging.SanitizeCollides | Backend/code-execution/generateFile.js:11-14 | sanitisation is not injective: `a-b` and `a_b` give the same class name |
| Staging.EscapeRoundTrip | Backend/code-execution/generateFile.js:20 | decoding the five entities in the code's order undoes HTML escaping for every text |
| Staging.UnescapeSingleLevel | Backend/code-execution/generateFile.js:20 | with `&amp;` decoded last, `&amp;lt;` decodes to `&lt;`, not `<` |
| Staging.UnescapeWithoutAmpersand | Backend/code-execution/generateFile.js:20 | code with no `&` is written unchanged |
| Staging.SourceFileName | Backend/code-execution/generateFile.js:22-27 | the file name is the sanitised id plus `.java` for java, and id + "." + format otherwise |
| Staging.GenerateFile | Backend/code-execution/generateFile.js:16-31 | the file goes to the codes directory under that name, holds the decoded code, and is returned with the raw id as uniqueName |
| Staging.SourceNamesInjective | Backend/code-execution/generateFile.js:22-27 | for non-java formats distinct job ids give distinct paths |
| Staging.JavaUniqueNameIsRaw | Backend/code-execution/generateFile.js:31 | for java the returned uniqueName is the raw id, which is not the name the file was written under |
| Staging.GenerateInputFile | Backend/code-execution/generateInputFile.js:11-15 | the input goes to `inputs/<name>.txt`; a missing input is written as the empty string |
| Staging.InputPathProperties | Backend/code-execution/generateInputFile.js:12-13 | two input paths are equal iff their names are, and an input path is never a source path |
| Runners.OnlyJavaWritesRaw | Backend/code-execution/javaCompiler.js:26 | C++ and Python decode entity-escaped code back to the original; Java writes the entities themselves |
| Runners.CommandShape | Backend/code-execution/cppCompiler.js:25 | the last command step reads the staged input; C++ and Java compile the source first, and Python runs the interpreter on the source with no compile step |
| Runners.CppLayout | Backend/code-execution/cppCompiler.js:15-22 | the C++ binary sits beside the source as `<id>.out`, the input is `inputs/<id>.txt`, and the three paths are distinct |
| Runners.StagingIsolation | Backend/code-execution/javaCompiler.js:16-33 | C++ or Python runs with distinct ids touch disjoint paths, while every Java run uses the same paths |
| Runners.Decide | Backend/code-execution/cppCompiler.js:35-44 | an exec error rejects with stderr, or the error message if stderr is empty; otherwise C++ and Python resolve iff stderr is empty, Java iff stderr is empty or stdout is not; a resolution carries stdout unchanged |
| Runners.StrictAndLenient | Backend/code-execution/javaCompiler.js:50-56 | non-empty stderr always rejects for C++ and Python; Java resolves with stdout when stdout is non-empty, and rejects otherwise |
| Runners.Settle | Backend/code-execution/cppCompiler.js:11-13 | `safeResolve`/`safeReject` settle a pending Promise and leave a settled one unchanged |
| Runners.Unlink | Backend/code-execution/cppCompiler.js:31-33 | deleting an optional path removes exactly that path |
| Runners.StepKeepsSettlement | Backend/code-execution/cppCompiler.js:11-13 | no single event changes an existing settlement |
| Runners.SettlesAtMostOnce | Backend/code-execution/cppCompiler.js:11-13 | once settled, no sequence of later events changes the settlement |
| Runners.CallbackSettles | Backend/code-execution/cppCompiler.js:28-45 | the exec callback on a pending run settles it with the outcome rule's decision |
| Runners.TimeoutWinsIfFirst | Backend/code-execution/cppCompiler.js:47-51 | a timer that fires first rejects with `Time Limit Exceeded`, and no later event overrides it (C++, Python, corrected Java) |
| Runners.JavaTimerNeverSettles | Backend/code-execution/javaCompiler.js:59-62 | as written, the Java timer only kills and never settles |
| Runners.CallbackCleansUp | Backend/code-execution/cppCompiler.js:31-33 | the callback deletes source, input and artifact, and leaves the run settled |
| Runners.TimeoutSettlesBeforeCleanup | Backend/code-execution/cppCompiler.js:47-51 | the timer settles the run without deleting any file |
| Runners.SetupFailureRejects | Backend/code-execution/cppCompiler.js:58-65 | a failure at any setup stage rejects with `Internal compiler setup error.` and spawns nothing |
| Runners.SetupFailureCleansUp | Backend/code-execution/cppCompiler.js:58-65 | when the catch block sees the source path, a setup failure leaves the file system as it found it |
| Runners.JavaSetupLeak | Backend/code-execution/javaCompiler.js:68-75 | as written, a Java setup failure after `Main.java` is written leaves `Main.java` behind |
| Runners.JavaTimeoutNotTle | Backend/code-execution/javaCompiler.js:59-62 | as written, a Java run killed by its timer is reported with the exec callback's message, not the TLE marker |
| Runners.SetupSuccess | Backend/code-execution/cppCompiler.js:14-56 | a successful setup has staged exactly source and input, spawned the child and armed the timer, with the Promise pending |
| Runners.RunBounded | Backend/code-execution/cppCompiler.js:28-56 | under any order of events only staged paths differ from the initial file system, and after the callback none do |
| Runners.NoArtifactOutlivesCallback | Backend/code-execution/cppCompiler.js:31-33 | under any order of events, once the callback has run the file system is what it was before the run and the Promise is settled |
| Runners.Execution.constructor | Backend/code-execution/cppCompiler.js:9-27 | the invocation's state after its try block (or catch block) is the specified setup state |
| Runners.Execution.StageSource | Backend/code-execution/cppCompiler.js:15-18 | writing the source adds its path to the file system and fixes the artifact path; the catch block sees the source path unless it is Java's |
| Runners.Execution.StageInput | Backend/code-execution/cppCompiler.js:21-22 | writing the input adds its path to the file system and records it |
| Runners.Execution.UnlinkIfExists | Backend/code-execution/cppCompiler.js:31 | the file system loses exactly the given path |
| Runners.Execution.SafeResolve | Backend/code-execution/cppCompiler.js:12 | only the settlement changes, and only if pending |
| Runners.Execution.SafeReject | Backend/code-execution/cppCompiler.js:13 | only the settlement changes, and only if pending |
| Runners.Execution.CatchBlock | Backend/code-execution/cppCompiler.js:58-65 | the state becomes the specified setup-failure state |
| Runners.Execution.OnCompiled | Backend/code-execution/cppCompiler.js:25 | the compiler's output appears in the file system as the step function says |
| Runners.Execution.OnExit | Backend/code-execution/cppCompiler.js:53-56 | the exit handler clears the timer as the step function says |
| Runners.Execution.OnTimer | Backend/code-execution/cppCompiler.js:47-51 | the timer callback kills and (except as-written Java) rejects with the TLE marker, as the step function says |
| Runners.Execution.OnDone | Backend/code-execution/cppCompiler.js:28-45 | the exec callback deletes the staged files and then settles, as the step function says |
| Runners.Execute | Backend/code-execution/cppCompiler.js:7-67 | driving an invocation with a sequence of events yields the settlement and file system of the specified run |
| Judge.RunnerForName | Backend/code-execution/judge.js:28-40 | dispatch is case-insensitive: python, cpp and java pick their runner, and anything else has none |
| Judge.LowerOfLower | Backend/code-execution/judge.js:28 | a name with no capitals is its own lower case |
| Judge.RunnerForLanguage | Backend/code-execution/judge.js:28-40 | of the five schema languages exactly cpp, java and python have a runner; `JAVA` selects Java |
| Judge.TimeoutMs | Backend/code-execution/judge.js:27 | the timeout is timeLimit·1000 when timeLimit is set and non-zero, else 10000 for java and 5000 otherwise |
| Judge.TimeoutUnits | Backend/code-execution/judge.js:27 | the default timeLimit of 1000 becomes 1000000 ms; a zero timeLimit falls back to the language default |
| Judge.ErrorText | Backend/code-execution/judge.js:69-70 | the recorded error is stderr, or `Execution Error` when stderr is empty; it is never empty |
| Judge.ResultFor | Backend/code-execution/judge.js:46-71 | a result is numbered i+1 and carries the test's input and expected output; it passes iff the run returned output equal to the expected one after trimming; a thrown run records its error text |
| Judge.Stored | Backend/models/Submission.js:34-42 | the stored results keep each result's number, pass flag and error message |
| Judge.AllTests | Backend/code-execution/judge.js:16 | the tests are the sample cases followed by the hidden cases |
| Judge.ErrorStatus | Backend/code-execution/judge.js:57-62 | a thrown run is time_limit_exceeded iff stderr contains the marker, otherwise runtime_error |
| Judge.Attempts | Backend/code-execution/judge.js:22-40 | attempt i runs the submission on test i with the problem's timeout |
| Judge.FirstThrow | Backend/code-execution/judge.js:72 | the index of the first thrown attempt: every earlier attempt ran |
| Judge.ResultsOf | Backend/code-execution/judge.js:22-74 | there is one result per run attempt up to and including the first throw, each as `ResultFor` says |
| Judge.AcceptedIffAllPass | Backend/code-execution/judge.js:18-74 | the verdict is accepted iff every test ran and passed |
| Judge.WrongAnswerContinues | Backend/code-execution/judge.js:43-45 | a wrong answer does not stop the loop: with no throw all tests are recorded and the verdict is wrong_answer |
| Judge.ThrowDecides | Backend/code-execution/judge.js:55-72 | the first throw ends the loop with k+1 results and sets the verdict to TLE or runtime error from its stderr, overriding an earlier wrong answer |
| Judge.NoTestsAccepted | Backend/code-execution/judge.js:18-22 | a problem without tests is accepted with no results |
| Judge.UnsupportedLanguage | Backend/code-execution/judge.js:38-39 | c and javascript end as runtime_error after one failed result whose recorded output is `Execution Error`, since the thrown error has no stderr |
| Judge.JudgeTests | Backend/code-execution/judge.js:22-74 | the loop computes the specified verdict and results |
| Judge.JudgeStep | Backend/code-execution/judge.js:23-73 | one iteration either stops at a throw with the final verdict and results, or extends the progress of the loop by one test |
| Judge.ThrownRecord | Backend/code-execution/judge.js:55-71 | the catch block sets the status the error gives and pushes the specified error record |
| Judge.RanRecord | Backend/code-execution/judge.js:42-54 | a test that ran passes iff the trimmed outputs agree, and pushes the specified record |
| Judge.ThrowStep | Backend/code-execution/judge.js:55-72 | the record pushed at the first throw completes the results, and the verdict is the one its error gives |
| Judge.RanStep | Backend/code-execution/judge.js:42-54 | a test that ran extends the recorded prefix by its record, and all tests so far passed iff the earlier ones did and this one did |
| Judge.LoopEnd | Backend/code-execution/judge.js:22-74 | a loop that ran all tests without a throw holds all results, accepted iff every test passed |
| Judge.RunTest | Backend/code-execution/judge.js:26-40 | one loop body's `switch` runs the specified attempt |
| Judge.JudgeSubmission | Backend/code-execution/judge.js:7-96 | a missing submission writes nothing; a failed lookup or a vanished problem gives internal-error; otherwise the saved submission carries the verdict and stored results, and acceptedCount rises by 1 iff accepted |
| RunController.SampleOutcome | Backend/controllers/runController.js:60-104 | a sample's result keeps its input and expected output; an unsupported language reports "not supported" without running; otherwise OK with trimmed comparison, or TLE/Error with the error text |
| RunController.CustomOutcome | Backend/controllers/runController.js:38-43 | a custom run returns stdout with tle false, or the error text with tle iff stderr holds the marker |
| RunController.RunAgreesWithJudge | Backend/controllers/runController.js:85-104 | for a supported language a sample result passes, is OK, or is TLE exactly when the judge would record a pass, a run, or a TLE on that test |
| RunController.RunCode | Backend/controllers/runController.js:7-112 | missing fields give 400; a failed lookup gives 500; a custom run uses the language's runner with the problem's timeout; a standard run without a problem is 404, and otherwise returns exactly min(2, samples) results, one per sample |
| RunController.RunCustom | Backend/controllers/runController.js:22-43 | a custom run for a supported runner answers the classified custom outcome of its one execution |
| RunController.RunSamples | Backend/controllers/runController.js:57-105 | the loop records one result per public sample, in order, each classified as `SampleOutcome` says; no sample is skipped |
| RunController.RunSample | Backend/controllers/runController.js:61-104 | one iteration produces the classified result of its sample |
| Contests.StatusFilterAgrees | Backend/controllers/contestController.js:18-28 | for a well-formed contest, the query filter for a status matches iff the contest has that status |
| Contests.InvertedContestListedTwice | Backend/controllers/contestController.js:18-28 | a contest ending before it starts matches both the upcoming and the completed filter |
| Contests.ListContests | Backend/controllers/contestController.js:9-59 | the request fails iff skip is negative; otherwise the page is exactly the skip/limit window of the contests matching the status filter (and, for non-admins, public), without passwords, of `PageLength` entries; count is its length, total counts all matches, totalPages is their page count |
| Contests.NonAdminListsPublicOnly | Backend/controllers/contestController.js:31-33 | a non-admin only sees public contests, without a password |
| Contests.FindContest | Backend/controllers/contestController.js:99-101 | an ObjectId-shaped parameter is looked up by id, anything else by slug; None iff nothing matches |
| Contests.ObjectIdShapedSlugUnreachable | Backend/controllers/contestController.js:99-101 | a contest whose slug looks like an ObjectId cannot be found by that slug |
| Contests.ViewContest | Backend/controllers/contestController.js:97-144 | 404 iff no contest matches; 403 iff it is not public and the viewer is neither its creator nor an admin; a shown contest hides its problems before the start |
| Contests.ProblemsHiddenUntilStart | Backend/controllers/contestController.js:126-130 | a shown contest has no problems before its start time, and all of them from then on |
| Contests.ListedIsViewable | Backend/controllers/contestController.js:115-123 | every listed contest may be opened by the same viewer |
| Contests.MayView | Backend/controllers/contestController.js:114-117 | public contests are open to all and every contest to admins; without a user, or for a user who is not the creator, only public ones |
| Contests.RegisterOutcome | Backend/controllers/contestController.js:293-310 | registration is refused exactly on a password mismatch, reports already-registered exactly for a listed user, and succeeds otherwise |
| Contests.AfterRegister | Backend/controllers/contestController.js:309-310 | a successful registration appends the user once, and nothing else in the contest changes |
| Contests.RegisterTwice | Backend/controllers/contestController.js:301-306 | registering again after a success reports already-registered |
| Contests.RegisterKeepsDistinct | Backend/controllers/contestController.js:301-310 | registration keeps the registered users free of duplicates |
| Contests.PasswordNeverLoaded | Backend/controllers/contestController.js:293-298 | as written, the right password is rejected and no password is accepted |
| Contests.PasswordChecked | Backend/controllers/contestController.js:293-298 | corrected, a new user registers iff the given password equals the contest's |
| Contests.ContestStore.Register | Backend/controllers/contestController.js:277-324 | a malformed id gives 500 and a missing contest 404, both leaving the store unchanged; otherwise the response is the registration outcome and only that contest is updated |
| ContestLeaderboard.PointsOf | Backend/controllers/contestController.js:366-368 | a problem's points are those of its first entry in the contest, and 0 when it is not listed |
| ContestLeaderboard.Visit | Backend/controllers/contestController.js:353-379 | one callback adds the user to the key order once and touches no other user's entry |
| ContestLeaderboard.TallyAll | Backend/controllers/contestController.js:353-379 | the fold keeps the four objects consistent (every user has points, a solved list and a time) |
| ContestLeaderboard.TallyUsers | Backend/controllers/contestController.js:357-362 | the users with an entry are exactly those with a submission, each once |
| ContestLeaderboard.TallySolved | Backend/controllers/contestController.js:364-371 | corrected, each user's solved list holds, once each, exactly the problems they had accepted, and the points are the sum of those problems' points |
| ContestLeaderboard.TallyLast | Backend/controllers/contestController.js:373-377 | corrected, lastAcceptedAt is the latest time among each problem's first accepted submission, or 0 |
| ContestLeaderboard.RowsOf | Backend/controllers/contestController.js:382-393 | there is one row per user, in key order |
| ContestLeaderboard.RowOfUser | Backend/controllers/contestController.js:382-393 | each row's points, solvedCount and lastAcceptedAt are what its user's submissions determine |
| ContestLeaderboard.StandingsOrdered | Backend/controllers/contestController.js:381-399 | rows are ordered by points descending, then lastAcceptedAt ascending; rows equal on both keep the order in which their users first submitted, as the stable `Array.prototype.sort` keeps them |
| ContestLeaderboard.Standings | Backend/controllers/contestController.js:396-399 | the rows sent are a rearrangement of the per-user rows, sorted by the comparator |
| ContestLeaderboard.TiedRowsKeepSubmitOrder | Backend/controllers/contestController.js:381-399 | two users who both scored nothing are listed in the order they first submitted |
| ContestLeaderboard.SortedRowsCorrect | Backend/controllers/contestController.js:396-399 | sorting keeps every row correct and every submitting user present exactly once |
| ContestLeaderboard.StandingsCorrect | Backend/controllers/contestController.js:353-399 | corrected, the standings have one correct row per submitting user and no other row |
| ContestLeaderboard.ZeroPointReset | Backend/controllers/contestController.js:358-362 | as written, solving a 0-point problem and submitting again resets the user's row to 0 solved; corrected, the row keeps 1 solved and its time |
| ContestLeaderboard.Callback | Backend/controllers/contestController.js:353-379 | the in-place update of the key order and the three objects equals one visit |
| ContestLeaderboard.ResetUser | Backend/controllers/contestController.js:357-362 | the head of the callback (re)initialises the user's entry exactly as the reset rule says |
| ContestLeaderboard.ScoreSubmission | Backend/controllers/contestController.js:364-377 | the rest of the callback scores an accepted submission for a problem not yet solved, as the scoring rule says |
| ContestLeaderboard.TallySubmissions | Backend/controllers/contestController.js:353-379 | the loop yields the fold when every user and problem populates, and fails exactly when one does not |
| ContestLeaderboard.Leaderboard | Backend/controllers/contestController.js:327-414 | 404 for a missing contest, 500 for a failed lookup or a vanished user/problem; otherwise the standings over the contest's submissions inside its window, in the stable order `StandingsOrdered` states |
| Submissions.Page | Backend/controllers/submissionController.js:45-64 | the page fails iff a filter id does not cast or skip is negative; otherwise `IsPageOf`: data is exactly the skip/limit window of the matches (less the submissions whose problem is gone, when those are dropped), count is its length, total counts all matches, totalPages is their page count, currentPage the requested page |
| Submissions.ListAll | Backend/controllers/submissionController.js:8-73 | non-admins get 403; for admins the request fails iff a filter id does not cast or skip is negative; otherwise the page is the window of all query filters with vanished problems dropped, count its length, total and totalPages over all matches |
| Submissions.ListOwn | Backend/controllers/submissionController.js:153-203 | the request fails iff a filter id does not cast or skip is negative; otherwise the page is the window of the requester's submissions matching the other filters, whatever user the query names, with count, total and totalPages over those matches |
| Submissions.ListForUser | Backend/controllers/submissionController.js:206-258 | 403 iff the requester is neither the user nor an admin; it fails iff the user id is empty or an id does not cast or skip is negative; otherwise the page is the window of that user's submissions matching `problem` and `status` only, with count, total and totalPages over those matches |
| Submissions.ViewSubmission | Backend/controllers/submissionController.js:261-297 | 404 iff missing; 403 iff it is not public and the viewer is neither owner nor admin; a shown submission is the document |
| Submissions.Bump | Backend/controllers/submissionController.js:127-129 | `$inc` changes the two counters of the named problem by the given amounts, does nothing for a missing problem, and touches no other problem |
| Submissions.CardSwap | Backend/controllers/submissionController.js:320-331 | replacing an element in a set moves its size by the change of membership |
| Submissions.RemoveEffect | Backend/controllers/submissionController.js:367-378 | deleting a submission lowers its problem's submission count by one, and its accepted count iff it was accepted |
| Submissions.AcceptedDelta | Backend/controllers/submissionController.js:327-331 | corrected, an edit moves acceptedCount by the change in acceptance; as written it only ever adds 1, for a change to accepted |
| Submissions.CreateDecision | Backend/controllers/submissionController.js:76-150 | an absent problem, or a well-formed id of no problem, gives 404 and a present malformed one 500; past that, a contest id that does not cast gives 500, a well-formed id of no contest 404, a time outside its window 400, and an unregistered user 403, each as an iff; a created submission is pending and public |
| Submissions.ContestSubmissionInWindow | Backend/controllers/submissionController.js:103-117 | every created contest submission lies inside the contest's window and comes from a registered user |
| Submissions.CreateKeepsCounters | Backend/controllers/submissionController.js:124-133 | creation keeps each problem's counters equal to the counts of its submissions and accepted submissions |
| Submissions.DeleteKeepsCounters | Backend/controllers/submissionController.js:367-378 | deletion keeps the counters equal to those counts |
| Submissions.EditKeepsCounters | Backend/controllers/submissionController.js:320-331 | a corrected edit keeps the counters equal to those counts |
| Submissions.EditLeavesStaleCount | Backend/controllers/submissionController.js:327-331 | as written, editing an accepted submission to wrong_answer leaves acceptedCount at 1 with no accepted submission |
| Submissions.SubmissionStore.Create | Backend/controllers/submissionController.js:76-150 | the response is the creation decision; a created submission is stored and its problem's submissionCount rises by 1; the counter invariant is kept |
| Submissions.SubmissionStore.Admit | Backend/controllers/submissionController.js:79-121 | the checks before the write give the creation decision, without changing the store |
| Submissions.SubmissionStore.Store | Backend/controllers/submissionController.js:124-133 | the new submission is added under its id, its problem's submissionCount rises by one, and the counters stay consistent |
| Submissions.SubmissionStore.Edit | Backend/controllers/submissionController.js:300-345 | non-admins get 403, a malformed id 500, a missing one 404, an unknown status 500; an edit stores the new status, moves acceptedCount as the variant says, and the corrected edit keeps the invariant |
| Submissions.SubmissionStore.Delete | Backend/controllers/submissionController.js:348-392 | non-admins get 403, a malformed id 500, a missing one 404; a deletion removes the submission, adjusts its problem's counters and keeps the invariant |
| Problems.TagFilter | Backend/controllers/problemController.js:20-22 | a single tag and a list of tags both become a list; an absent or empty tag adds no filter |
| Problems.SingleTagAsList | Backend/controllers/problemController.js:20-22 | a single tag filters exactly as the one-element list does, and requires the tag |
| Problems.ListProblems | Backend/controllers/problemController.js:7-53 | the request fails iff skip is negative; otherwise the page is exactly the skip/limit window of the matching problems (difficulty, tags, and public for non-admins), of `PageLength` entries; count is its length, total and totalPages count all matches |
| Problems.NonAdminListsPublicProblems | Backend/controllers/problemController.js:25-27 | a non-admin only lists public problems |
| Problems.ReadProblem | Backend/controllers/problemController.js:91-126 | 404 iff missing; corrected, a problem is shown iff it is public or the viewer is its creator or an admin; as written, only public problems and admins get through |
| Problems.CreatorLockedOut | Backend/controllers/problemController.js:104-112 | as written, the creator of a private problem who is not an admin is refused |
| Problems.MayRead | Backend/controllers/problemController.js:104-107 | corrected gate: public problems are open to all and every problem to admins; without a user, or for a user who is not the creator, only public ones |
| Problems.EditedSlug | Backend/controllers/problemController.js:187-189 | the slug is regenerated iff a non-empty title differing from the current one is given |
| Problems.InitialSlug | Backend/controllers/problemController.js:62-64 | a new problem keeps a given slug, else takes the title's slug |
| Problems.EditProblem | Backend/controllers/problemController.js:167-217 | 404 iff missing; 403 iff the editor is neither creator nor admin; of the fields it models (title and slug), 500 iff the trimmed title is invalid or the slug written trims to empty, as the update's validators refuse; otherwise 400 iff the stored slug is taken; an edit stores the trimmed title and the trimmed, lower-cased slug |
| Problems.EditRejectsEmpty | Backend/controllers/problemController.js:191-195 | an empty slug and a title of blanks are refused with 500 |
| Problems.EditRejectsAstralTitle | Backend/models/Problem.js:9 | a title of 101 characters above U+FFFF is 202 UTF-16 units long and is refused with 500 |
| Problems.SlugStableWithoutRetitle | Backend/controllers/problemController.js:187-195 | re-sending the current (stored, hence trimmed) title keeps the current slug and the whole document |
| Problems.DeleteProblem | Backend/controllers/problemController.js:220-253 | deletion succeeds iff the problem exists and the requester is its creator or an admin, is forbidden otherwise, and 404 for a missing problem |
| Problems.AcceptedOn | Backend/controllers/problemController.js:271-275 | the candidates are exactly this problem's accepted submissions |
| Problems.BestOf | Backend/controllers/problemController.js:277-285 | a user's best submission is one of theirs that is no worse than any other of theirs in (executionTime, memoryUsage, submittedAt) |
| Problems.RowMeaning | Backend/controllers/problemController.js:277-285 | a best row shows an accepted submission of its user that no other accepted submission of theirs beats |
| Problems.GroupedUsers | Backend/controllers/problemController.js:277-292 | the grouped rows are for distinct users who still exist |
| Problems.GroupedRowsCorrect | Backend/controllers/problemController.js:277-292 | each grouped row is its user's best row |
| Problems.GroupedDistinct | Backend/controllers/problemController.js:277-292 | no two grouped rows are equal |
| Problems.GroupedComplete | Backend/controllers/problemController.js:277-292 | every existing user with a candidate has a row |
| Problems.SortedRowsCorrect | Backend/controllers/problemController.js:301 | after the final sort each row is still its user's best, and users are distinct |
| Problems.SortedRowsComplete | Backend/controllers/problemController.js:301 | after the sort every existing user with a candidate still has a row |
| Problems.LeaderboardCorrect | Backend/controllers/problemController.js:270-302 | the leaderboard has exactly one best row per existing user with an accepted submission, sorted by (executionTime, memoryUsage) |
| Problems.ProblemLeaderboard | Backend/controllers/problemController.js:256-317 | 404 iff missing, 500 iff the lookup failed; otherwise the count and the rows of the leaderboard |
| Problems.AcceptedProblemIds | Backend/controllers/dashboardController.js:9 | the ids are distinct, each solved by the user, and include every problem the user has an accepted submission for; the same ids the `$match`/`$group` stages of problemController.js:324-331 produce |
| Problems.DistinctSolvedSound | Backend/controllers/problemController.js:324-331 | every distinct id comes from an accepted submission of the user (also the ids of dashboardController.js:9) |
| Problems.DistinctSolvedComplete | Backend/controllers/problemController.js:324-331 | every problem the user has an accepted submission for is among the distinct ids (also those of dashboardController.js:9) |
| Problems.SolvedProblems | Backend/controllers/problemController.js:320-347 | the solved problems are exactly the distinct existing problems with an accepted submission by the user |
| Dashboard.ProblemsSolvedCounts | Backend/controllers/dashboardController.js:9-10 | problemsSolved is the number of distinct problems the user has an accepted submission for |
| Dashboard.TotalSubmissions | Backend/controllers/dashboardController.js:11 | the submission count counts the user's submissions and is at most the collection's size |
| Dashboard.ProgressOf | Backend/controllers/dashboardController.js:14-27 | for each difficulty, solved ≤ total ≤ the number of problems |
| Dashboard.ProgressStep | Backend/controllers/dashboardController.js:20-27 | one more problem adds 1 to its difficulty's total, and 1 to solved iff its id is solved |
| Dashboard.ComputeProgress | Backend/controllers/dashboardController.js:14-27 | the `forEach` counts, per difficulty, the problems and the solved problems; the three totals add up to all problems |
| Dashboard.TotalsAddUp | Backend/controllers/dashboardController.js:14-27 | the three per-difficulty totals add up to the number of problems |
| Dashboard.LatestOf | Backend/controllers/dashboardController.js:30-41 | none iff the problem has no submission here; otherwise a submission for it at the latest time |
| Dashboard.GroupsCorrect | Backend/controllers/dashboardController.js:30-41 | the aggregate yields one group per solved problem, each reporting its latest accepted submission |
| Dashboard.RecentGroupsCorrect | Backend/controllers/dashboardController.js:30-41 | the groups are sorted most recent first, with distinct problems |
| Dashboard.LatestReported | Backend/controllers/dashboardController.js:30-41 | each group's submission id and time are those of an accepted submission of the user, and no accepted one for that problem is later |
| Dashboard.TopGroupsCorrect | Backend/controllers/dashboardController.js:39-40 | the first three groups keep order, distinctness and latest-ness |
| Dashboard.RecentProblems | Backend/controllers/dashboardController.js:30-62 | at most three entries; exactly the first three groups whose problem still exists |
| Dashboard.RecentEntriesLatest | Backend/controllers/dashboardController.js:30-62 | every entry of recentProblems is for an existing problem and is its latest accepted submission by the user |
| Dashboard.RecentEntriesDistinct | Backend/controllers/dashboardController.js:30-62 | two entries of recentProblems are for different problems |
| Dashboard.RecentProblemsCorrect | Backend/controllers/dashboardController.js:30-62 | recentProblems has at most 3 entries, most recent first, for distinct problems that still exist, each with its latest accepted submission |
| Dashboard.Rank | Backend/controllers/dashboardController.js:65-72 | rank is 1 plus the number of users who solved strictly more distinct problems, so it is at least 1 |
| Dashboard.RankOne | Backend/controllers/dashboardController.js:65-72 | rank is 1 iff nobody solved more |
| Dashboard.RankMonotone | Backend/controllers/dashboardController.js:65-72 | solving more never worsens the rank |
| Dashboard.WholeDays | Backend/controllers/dashboardController.js:89 | the day difference is the ceiling of the difference of two midnights, in days |
| Dashboard.SubmissionDays | Backend/controllers/dashboardController.js:75-78 | the days are strictly decreasing (most recent first, no repeats) and are exactly the UTC days of the user's accepted submissions |
| Dashboard.Streak | Backend/controllers/dashboardController.js:75-98 | the loop's streak is 0 without a day of today or yesterday; otherwise it is the length of the run of consecutive days back from the most recent, stopping at the first gap, and never more than the days |
| Dashboard.WithStatus | Backend/controllers/dashboardController.js:101-110 | one entry per problem, in order, marked solved iff its id is solved |
| Dashboard.ProgressMatchesStatus | Backend/controllers/dashboardController.js:14-27 | the solved counts of the progress add up to the entries marked solved in the problem list |
| Dashboard.DashboardStats | Backend/controllers/dashboardController.js:4-130 | the handler's fields are the solved count, submission count, rank, streak, the per-difficulty progress of `ProgressOf` (totals adding up to the number of problems), recent problems and status list as specified |
| Middleware.StripScheme | Backend/middleware/corsMiddleware.js:30 | `https://` and `http://` prefixes are removed and nothing else |
| Middleware.AnyMatch | Backend/middleware/corsMiddleware.js:28-33 | `some` holds iff one listed origin matches |
| Middleware.CorsOrigin | Backend/middleware/corsMiddleware.js:18-37 | an origin is allowed iff it is absent, in development, equal to a listed origin, or a subdomain of one with its scheme stripped |
| Middleware.ListedOriginsAllowed | Backend/middleware/corsMiddleware.js:6-15 | every listed origin is allowed |
| Middleware.SubdomainsAllowed | Backend/middleware/corsMiddleware.js:30-32 | any `x.` prefix of a listed host is allowed |
| Middleware.SubdomainMatches | Backend/middleware/corsMiddleware.js:29-30 | `x.` followed by a domain's host, under any scheme, matches that domain |
| Middleware.PlainHttpSubdomainAllowed | Backend/middleware/corsMiddleware.js:30-32 | a plain-http subdomain of an https-only listed origin is allowed: the scheme is not checked |
| Middleware.ForeignOriginBlocked | Backend/middleware/corsMiddleware.js:35-36 | in production an origin ending in a character no listed origin ends with is rejected |
| Middleware.LastCharMismatch | Backend/middleware/corsMiddleware.js:28-33 | such an origin matches no listed origin |
| Middleware.Response.constructor | Backend/middleware/corsMiddleware.js:62 | a response starts with no headers, not ended |
| Middleware.Response.Header | Backend/middleware/corsMiddleware.js:66-70 | `res.header` sets exactly one header |
| Middleware.Response.End | Backend/middleware/corsMiddleware.js:74 | `res.status(code).end()` sets the status and ends the response |
| Middleware.AllowOrigin | Backend/middleware/corsMiddleware.js:66 | Allow-Origin is `*` for an absent or empty origin, and echoes the origin otherwise |
| Middleware.PreflightHeaders | Backend/middleware/corsMiddleware.js:66-70 | the five CORS headers with the echoed origin, credentials `true` and a max age of 86400 |
| Middleware.HandlePreflight | Backend/middleware/corsMiddleware.js:62-78 | the five headers are added to what was there; OPTIONS ends with 204 and does not continue, every other method continues |
| Middleware.SetCorsHeaders | Backend/middleware/corsMiddleware.js:66-70 | the five header writes add exactly the preflight headers and change neither status nor ending |
| Middleware.SecurityHeaderValues | Backend/middleware/corsMiddleware.js:83-91 | the four security headers with their fixed values |
| Middleware.SecurityHeaders | Backend/middleware/corsMiddleware.js:83-91 | the four headers are added and the request continues |
| Middleware.BearerToken | Backend/middleware/auth.js:10-12 | a token exists only for a header starting with `Bearer`, and is the second space-separated field, non-empty and without spaces |
| Middleware.BearerRoundTrip | Backend/middleware/auth.js:10-12 | `Bearer <token>` yields the token back |
| Middleware.LooseSchemePrefix | Backend/middleware/auth.js:10-12 | the check is looser than the Bearer scheme: `BearerX abc` still yields `abc` |
| Middleware.BareSchemeNoToken | Backend/middleware/auth.js:10-12 | `Bearer` alone yields no token |
| Middleware.ProtectStatus | Backend/middleware/auth.js:15-42 | every refusal is a 401 |
| Middleware.Protect | Backend/middleware/auth.js:5-43 | no token gives not-logged-in; access is granted iff a token verifies to a well-formed id of an existing user, who becomes `req.user` |
| Middleware.RestrictTo | Backend/middleware/auth.js:46-57 | the request passes iff the user's role is listed |
| Middleware.RestrictToMonotone | Backend/middleware/auth.js:46-57 | listing more roles never refuses a user who passed |
| Middleware.IsCreatorOrAdmin | Backend/middleware/auth.js:60-96 | 404 for a missing resource and 500 for a failed lookup; the resource passes iff its creator is the user or the user is an admin, and is 403 otherwise |
| Middleware.CreatorlessAdminOnly | Backend/middleware/auth.js:77-83 | a resource without a creator only passes for admins |
| Scripts.FindBySlug | Backend/scripts/cleanupSubmissions.js:46 | the first problem with the slug, and none iff no problem has it |
| Scripts.RepairableInPrefixCounts | Backend/scripts/cleanupSubmissions.js:36-60 | the loop's counter equals the number of repairable submissions seen so far |
| Scripts.RepairOne | Backend/scripts/cleanupSubmissions.js:42-59 | one loop body rewrites the submission to its repaired form, reporting whether it was repairable; an unrepairable one is unchanged |
| Scripts.CleanupSubmissions | Backend/scripts/cleanupSubmissions.js:35-64 | over the stored values, every submission is replaced by its repaired form in place, and repairedCount is the number of repairable submissions (the loop the script intends; see Findings for what it does on loaded documents) |
| Scripts.RepairAt | Backend/scripts/cleanupSubmissions.js:42-59 | one iteration saves slot i in its repaired form, reports whether it was repairable, and changes no other slot |
| Scripts.RepairTarget | Backend/scripts/cleanupSubmissions.js:43-53 | a repairable submission now refers to the id of the problem with its old slug |
| Scripts.RepairLeavesOthers | Backend/scripts/cleanupSubmissions.js:54-59 | a submission with an ObjectId reference, or with a slug no problem has, is untouched |
| Scripts.RepairChanges | Backend/scripts/cleanupSubmissions.js:42-59 | with well-formed problem ids, a submission changes iff it is repairable, and is not repairable afterwards |
| Scripts.CleanupIdempotent | Backend/scripts/cleanupSubmissions.js:35-64 | a second run over the repaired submissions repairs nothing |
| Scripts.LoadedNotRepairable | Backend/scripts/cleanupSubmissions.js:35-42 | a document loaded through the ObjectId-typed `problem` path never holds a slug, so the guard never admits it |
| Scripts.LoadedCleanupRepairsNothing | Backend/scripts/cleanupSubmissions.js:35-59 | as written, over loaded documents the loop repairs none and changes none |
| Scripts.StoredSlugSkippedOnLoad | Backend/scripts/cleanupSubmissions.js:42 | a stored slug of an existing problem is repairable when read raw and skipped once loaded |
| Scripts.DeleteBrokenSubmissions | Backend/scripts/deleteBrokenSubmissions.js:25-48 | the remaining submissions are the intact ones in order, deletedCount counts the broken ones, and the two add up to all |
| Scripts.DeleteLeavesIntact | Backend/scripts/deleteBrokenSubmissions.js:31-44 | every remaining submission refers to an existing problem, and every intact submission remains |
| Scripts.DeleteIdempotent | Backend/scripts/deleteBrokenSubmissions.js:25-48 | a second run deletes nothing and keeps everything |
| Scripts.LoadKeepsBroken | Backend/scripts/deleteBrokenSubmissions.js:25-37 | loading does not change which submissions are deleted, when every problem id is an ObjectId |
| Seqs.CountComplement | Backend/scripts/deleteBrokenSubmissions.js:35-45 | the counts of a predicate and its complement add up to the length |
| Seqs.FilterIdempotent | Backend/scripts/deleteBrokenSubmissions.js:35-45 | filtering twice is filtering once |
| Seqs.SortBy | Backend/controllers/contestController.js:396-399 | the sort returns a permutation of its input ordered by the key |
| Seqs.SortStable | Backend/controllers/contestController.js:396-399 | the sort is stable: elements sharing a key keep their input order |
| Seqs.InsertStable | Backend/controllers/contestController.js:396-399 | inserting an element puts it ahead of those with its key and keeps their order |
| Seqs.Distinct | Backend/controllers/dashboardController.js:78 | distinct keeps the first occurrence of each element: no duplicates, same elements |

## Left out
- Child processes, shell commands, `kill` and the real timer become the events `Compiled`, `Exit`, `TimerFires` and `Done`, in any order. Concurrency across requests is not modelled beyond which paths two runs share.
- uuid generation is a job-id parameter. Distinct ids are the only assumption.
- The file system is a set of paths. Directory creation (`mkdirSync`), write failures other than the three setup stages, and file contents beyond the written source are left out.
- MongoDB and Mongoose are modelled by what each query computes:
  - Collections are sequences in the order a query returns them, or maps.
  - `populate` of a vanished document is null.
  - A malformed id is a cast error and gives 500.
  - `$inc` on a missing document does nothing.
  - Loading a document casts each path to its schema type; this is modelled for the `problem` path of the scripts (`Scripts.Load`). A 12-character stored value casts to an ObjectId whose printed form differs; the model keeps it as stored, which changes nothing the scripts decide.
  - `select`/`$project` field lists, `.lean()`, timestamps (`createdAt` is taken to be `submittedAt`) and persistence failures other than lookups are left out.
- Find order is the input order. The leaderboards are proved for every order.
- The in-place JavaScript `Array.prototype.sort` is modelled on values, as an insertion sort by a two-part key that is proved stable (`SortStable`), as the language requires of it. MongoDB `$sort` stages are modelled by the same sort; their order among equal keys is not fixed by MongoDB.
- Wall-clock reads (`Date.now`, `new Date()`) become a "now" parameter. Measured execution times are left out, and `executionTime` of judged submissions is not modelled.
- Days in the streak are UTC day numbers (`floor(t / 86400000)`). "Yesterday" is the day before. Local time and daylight saving are left out.
- `jwt.verify` is a function parameter, and so is `slugify`. JWT signing, password hashing, the reset-token flow (authController.js) and e-mail (utils/email.js) are foreign calls and are not part of this model.
- How `mongoose.isValidObjectId` decides is taken to be: 12 characters or 24 hexadecimal digits.
- String lengths are counted in characters (Unicode scalar values), except for the title's `maxlength`, which is counted in UTF-16 units (`Utf16Length`). The 12-character case of an ObjectId string is counted in characters, so a string with a character above U+FFFF may be judged differently from `isValidObjectId`, which counts UTF-16 units.
- HTTP wiring is left out: server.js, code-execution/server.js and the route files. As a result:
  - Whether `protect` guards a route is not modelled; for example, the routes of `getProblemBySlug` and `getSingleContest` have no `protect`, so `req.user` is absent there.
  - `isCreatorOrAdmin` is not mounted on any route.
- Floating point: `acceptanceRate` is a real number, and the `toFixed(2)` rounding and string result are left out.
- The frontend, the manual test drivers (testCpp.js, testJava.js, testPython.js), the seed script and the left-over programs under code-execution/codes are not part of this model.
- The `cors` package's handling of `corsOptions` (methods, allowedHeaders, maxAge) is left out. Only the origin callback is modelled. The CORS protocol of the WHATWG Fetch Standard is not itself modelled. `Access-Control-Allow-Origin: *` together with credentials is what the code sends, whatever browsers then accept.
- New contest, edit contest, delete contest, recent contests, the all-contests leaderboard and create problem (other than its slug default) are outside the modelled core: their logic is field copying and persistence.
- Request-body fields that `createSubmission` and `editSubmission` copy verbatim are left out, and so is the asynchronous `judgeSubmission` call at the end of create. The judge is modelled on its own.
- The schema's `trim` and `lowercase` setters are modelled on the edit (`StoredSlug`, the trimmed title), not on create, where `InitialSlug` is the slug before the setters. Lower-casing is ASCII lower-casing (`ToLower`); non-ASCII letters in a slug are left as they are.
- Problems.EditProblem: only `title` and `slug` of the update body are modelled. The body is passed whole to `findByIdAndUpdate` with `runValidators`. So a 500 for another field (a `difficulty` outside the enum, an empty `description`, a `timeLimit` that is not a number) is not modelled, and neither is the copying of those fields.
- Problems.SlugStableWithoutRetitle: requires the stored title to be trimmed, as the schema's setter stores every title.
- recentProblems entries omit the title, slug and difficulty copied from the problem. Only the problem id, submission id and time are modelled.
- runController.js:44-48: the outer catch of the custom run is not reachable, because the inner catch returns. The model has no such path.
- Judge.TimeoutMs: states the `timeLimit * 1000` conversion as written. With the schema's default of 1000 (documented as milliseconds) this gives a 1000-second timeout (`TimeoutUnits`).
- Judging continues after a wrong answer and stops only on an exception (`WrongAnswerContinues`).
- On a timeout a runner rejects with the TLE marker at once and deletes its files only later, in the exec callback (`TimeoutSettlesBeforeCleanup`).
- Contests.ListContests: a contest whose end time precedes its start time is listed under two status filters (`InvertedContestListedTwice`). The schema does not forbid this.
- Submissions.ListOwn: requires a well-formed requester id, which `protect` guarantees on that route.
- Middleware.ForeignOriginBlocked: states rejection only for origins whose last character no listed origin ends with, not for every unlisted origin. `CorsOrigin` states the full condition as an equivalence.
- Dashboard.StreakUnique: states that the streak is determined by the days, and holds without a proof of its own, so it carries no row.

## Findings

| source | as written | input that shows it | evidently intended | confidence | as-written member | corrected member |
|---|---|---|---|---|---|---|
| Backend/code-execution/javaCompiler.js:18 | `const filePath` inside the try block shadows the outer `let filePath`, so the catch block's cleanup never sees `Main.java` | setup that fails while writing the input file, after `Main.java` was written | the catch block removes `Main.java`, as the C++ and Python runners remove their sources | not executed | Runners.JavaSetupLeak | Runners.SetupFailureCleansUp |
| Backend/code-execution/javaCompiler.js:59-62 | the timer only kills the child; it never rejects with `Time Limit Exceeded` | a Java program that runs past its timeout: the exec callback then reports the kill as an error | the timer rejects with the TLE marker first, as in the other runners, so the judge records time_limit_exceeded | not executed | Runners.JavaTimeoutNotTle | Runners.TimeoutWinsIfFirst |
| Backend/controllers/contestController.js:293 | `contest.password` is compared, but `password` has `select: false` (Contest.js:49-52) and `findById` does not select it | a password-protected contest with password `s`, registering with `s` (refused) or with none (accepted) | registration succeeds iff the given password equals the stored one | not executed | Contests.PasswordNeverLoaded | Contests.PasswordChecked |
| Backend/controllers/contestController.js:358 | `!userPoints[userId]` is also true for a user with 0 points, so their entry is reset on every visit | a problem worth 0 points: accepted at time 5, then another submission at 6 gives solvedCount 0 and lastAcceptedAt 0 | initialise a user's entry only once | not executed | ContestLeaderboard.ZeroPointReset | ContestLeaderboard.StandingsCorrect |
| Backend/controllers/submissionController.js:327-331 | an edit only ever increments acceptedCount; changing an accepted submission to another status does not decrement it | edit an accepted submission to wrong_answer: acceptedCount stays 1 with no accepted submission | acceptedCount moves by the change in acceptance, keeping it equal to the number of accepted submissions | not executed | Submissions.EditLeavesStaleCount | Submissions.EditKeepsCounters |
| Backend/controllers/problemController.js:106 | `problem.createdBy.toString()` is compared with the user id after `populate('createdBy')`, so it is a document's printed form, never the id | the non-admin creator of a private problem, reading it: 403 | the creator may read their own private problem | not executed | Problems.CreatorLockedOut | Problems.ReadProblem |
| Backend/scripts/cleanupSubmissions.js:35-42 | `Submission.find({})` loads documents through the ObjectId-typed `problem` path (Submission.js:10-13); a stored slug fails that cast and the path is left unset, so the `sub.problem &&` guard skips it | a submission storing `two-sum` where a problem has slug `two-sum`: nothing is repaired | the slug is replaced by that problem's id, reading the stored values raw (for example with `.lean()`) | not executed | Scripts.LoadedCleanupRepairsNothing | Scripts.CleanupSubmissions |
