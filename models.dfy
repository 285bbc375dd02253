/**
 * The three Mongoose schemas of the core (Problem, Contest, Submission): their
 * documents as values, their enums with the validation Mongoose applies, their
 * defaults and their virtual getters. Ids (ObjectIds) are strings; dates are
 * integer milliseconds.
 */
module Models {
  import opened Wrappers
  import opened Pagination

  type Id = string

  /** The authenticated requester `req.user`: its id and its `role`. */
  datatype Viewer = Viewer(id: Id, role: string)

  /** `req.user && req.user.role === 'admin'`. */
  predicate IsAdmin(viewer: Option<Viewer>) {
    viewer.Some? && viewer.value.role == "admin"
  }

  predicate IsHexChar(c: char) {
    '0' <= c <= '9' || 'a' <= c <= 'f' || 'A' <= c <= 'F'
  }

  /**
   * Whether a string casts to an ObjectId (`isValidObjectId`,
   * `ObjectId.isValid`): twelve characters taken as raw bytes, or
   * twenty-four hexadecimal digits.
   */
  predicate IsObjectIdString(s: string) {
    |s| == 12 || (|s| == 24 && forall i :: 0 <= i < |s| ==> IsHexChar(s[i]))
  }

  // ----- Submission -----

  /** The `status` enum of a submission. */
  datatype Status =
    | Pending | Judging | Accepted | WrongAnswer | TimeLimitExceeded
    | MemoryLimitExceeded | RuntimeError | CompilationError

  function StatusName(s: Status): string {
    match s
    case Pending => "pending"
    case Judging => "judging"
    case Accepted => "accepted"
    case WrongAnswer => "wrong_answer"
    case TimeLimitExceeded => "time_limit_exceeded"
    case MemoryLimitExceeded => "memory_limit_exceeded"
    case RuntimeError => "runtime_error"
    case CompilationError => "compilation_error"
  }

  /** Enum validation of a status string: the member it names, or None for a value outside the enum. */
  function ParseStatus(name: string): (r: Option<Status>)
    ensures r.Some? ==> StatusName(r.value) == name
    ensures r.None? ==> forall s :: StatusName(s) != name
  {
    if name == "pending" then Some(Pending)
    else if name == "judging" then Some(Judging)
    else if name == "accepted" then Some(Accepted)
    else if name == "wrong_answer" then Some(WrongAnswer)
    else if name == "time_limit_exceeded" then Some(TimeLimitExceeded)
    else if name == "memory_limit_exceeded" then Some(MemoryLimitExceeded)
    else if name == "runtime_error" then Some(RuntimeError)
    else if name == "compilation_error" then Some(CompilationError)
    else None
  }

  /** Every status validates as itself, and the eight names are distinct. */
  lemma StatusRoundTrip(s: Status)
    ensures ParseStatus(StatusName(s)) == Some(s)
  {
  }

  /** The judge's failure marker `internal-error` is not one of the eight values. */
  lemma InternalErrorOutsideEnum()
    ensures ParseStatus("internal-error") == None
  {
  }

  /** The `language` enum of a submission. */
  datatype Language = C | CppLang | JavaLang | PythonLang | JavaScript

  function LanguageName(l: Language): string {
    match l
    case C => "c"
    case CppLang => "cpp"
    case JavaLang => "java"
    case PythonLang => "python"
    case JavaScript => "javascript"
  }

  function ParseLanguage(name: string): (r: Option<Language>)
    ensures r.Some? ==> LanguageName(r.value) == name
    ensures r.None? ==> forall l :: LanguageName(l) != name
  {
    if name == "c" then Some(C)
    else if name == "cpp" then Some(CppLang)
    else if name == "java" then Some(JavaLang)
    else if name == "python" then Some(PythonLang)
    else if name == "javascript" then Some(JavaScript)
    else None
  }

  lemma LanguageRoundTrip(l: Language)
    ensures ParseLanguage(LanguageName(l)) == Some(l)
  {
  }

  /** One element of `testCaseResults` as the schema stores it. */
  datatype StoredResult = StoredResult(testCaseNumber: nat, passed: bool, errorMessage: Option<string>)

  /**
   * A submission document. `problem` holds the referenced problem's id (or,
   * in damaged data, some other string such as a slug).
   */
  datatype Submission = Submission(
    id: Id,
    user: Id,
    problem: Id,
    contest: Option<Id>,
    language: Language,
    code: string,
    status: Status,
    testCaseResults: seq<StoredResult>,
    executionTime: int,
    memoryUsage: int,
    isPublic: bool,
    submittedAt: int)

  /** A new submission document with the schema's defaults filled in; `now` is `Date.now`. */
  function NewSubmission(id: Id, user: Id, problem: Id, contest: Option<Id>, language: Language,
                         code: string, isPublic: Option<bool>, now: int): (s: Submission)
    ensures s.status == Pending && s.testCaseResults == []
    ensures s.executionTime == 0 && s.memoryUsage == 0 && s.submittedAt == now
    ensures s.isPublic == isPublic.GetOr(true)
    ensures s.id == id && s.user == user && s.problem == problem && s.contest == contest
    ensures s.language == language && s.code == code
  {
    Submission(id, user, problem, contest, language, code, Pending, [], 0, 0, isPublic.GetOr(true), now)
  }

  // ----- Problem -----

  datatype Difficulty = Easy | Medium | Hard

  function DifficultyName(d: Difficulty): string {
    match d
    case Easy => "easy"
    case Medium => "medium"
    case Hard => "hard"
  }

  function ParseDifficulty(name: string): (r: Option<Difficulty>)
    ensures r.Some? ==> DifficultyName(r.value) == name
    ensures r.None? ==> forall d :: DifficultyName(d) != name
  {
    if name == "easy" then Some(Easy)
    else if name == "medium" then Some(Medium)
    else if name == "hard" then Some(Hard)
    else None
  }

  lemma DifficultyRoundTrip(d: Difficulty)
    ensures ParseDifficulty(DifficultyName(d)) == Some(d)
  {
  }

  datatype TestCase = TestCase(input: string, output: string)

  /** A problem document. */
  datatype Problem = Problem(
    id: Id,
    title: string,
    slug: string,
    difficulty: Difficulty,
    sampleTestCases: seq<TestCase>,
    testCases: seq<TestCase>,
    timeLimit: int,
    memoryLimit: int,
    tags: seq<string>,
    createdBy: Id,
    isPublic: bool,
    acceptedCount: int,
    submissionCount: int)

  /**
   * A new problem document: the optional fields fall back to the schema's
   * defaults (time limit 1000, memory limit 256, public, both counters 0).
   */
  function NewProblem(id: Id, title: string, slug: string, difficulty: Difficulty,
                      samples: seq<TestCase>, tests: seq<TestCase>, timeLimit: Option<int>,
                      memoryLimit: Option<int>, tags: seq<string>, createdBy: Id, isPublic: Option<bool>): (p: Problem)
    ensures p.timeLimit == timeLimit.GetOr(1000) && p.memoryLimit == memoryLimit.GetOr(256)
    ensures p.isPublic == isPublic.GetOr(true)
    ensures p.acceptedCount == 0 && p.submissionCount == 0
    ensures p.sampleTestCases == samples && p.testCases == tests && p.createdBy == createdBy
  {
    Problem(id, title, slug, difficulty, samples, tests, timeLimit.GetOr(1000), memoryLimit.GetOr(256),
            tags, createdBy, isPublic.GetOr(true), 0, 0)
  }

  /**
   * The `acceptanceRate` virtual before its `toFixed(2)` rounding: 0 with no
   * submissions, otherwise the percentage of accepted submissions.
   */
  function AcceptanceRate(p: Problem): (rate: real)
    ensures p.submissionCount <= 0 ==> rate == 0.0
    ensures 0 <= p.acceptedCount <= p.submissionCount ==> 0.0 <= rate <= 100.0
  {
    if p.submissionCount > 0 then (p.acceptedCount as real) / (p.submissionCount as real) * 100.0 else 0.0
  }

  // ----- Contest -----

  datatype Visibility = Public | Private | PasswordProtected

  function VisibilityName(v: Visibility): string {
    match v
    case Public => "public"
    case Private => "private"
    case PasswordProtected => "password-protected"
  }

  /** Enum validation of `visibility`, with the schema default `public` for an absent value. */
  function ParseVisibility(name: Option<string>): (r: Option<Visibility>)
    ensures name.None? ==> r == Some(Public)
    ensures name.Some? && r.Some? ==> VisibilityName(r.value) == name.value
    ensures name.Some? && r.None? ==> forall v :: VisibilityName(v) != name.value
  {
    if name.None? then Some(Public)
    else if name.value == "public" then Some(Public)
    else if name.value == "private" then Some(Private)
    else if name.value == "password-protected" then Some(PasswordProtected)
    else None
  }

  lemma VisibilityRoundTrip(v: Visibility)
    ensures ParseVisibility(Some(VisibilityName(v))) == Some(v)
  {
  }

  /** One entry of a contest's `problems`; the type `nat` is the `min: 0` constraint on points. */
  datatype ContestProblem = ContestProblem(problem: Id, points: nat)

  /** Validation of a points value against `min: 0`. */
  function ValidatePoints(points: int): (r: Option<nat>)
    ensures r.Some? <==> points >= 0
    ensures r.Some? ==> r.value == points
  {
    if points >= 0 then Some(points) else None
  }

  /**
   * A contest document as stored. `password` is the stored field; a query
   * without `+password` never loads it (see `Loaded`).
   */
  datatype Contest = Contest(
    id: Id,
    title: string,
    slug: string,
    startTime: int,
    endTime: int,
    problems: seq<ContestProblem>,
    visibility: Visibility,
    password: Option<string>,
    createdBy: Id,
    registeredUsers: seq<Id>)

  /** What a plain `findById` returns: every field but `password`, which has `select: false`. */
  function Loaded(c: Contest): (l: Contest)
    ensures l.password == None
    ensures l == c.(password := None)
  {
    c.(password := None)
  }

  datatype ContestStatus = Upcoming | Ongoing | Completed

  /**
   * The `status` virtual at instant `now`: it names exactly one phase, and
   * each phase means what its name says.
   */
  function StatusAt(c: Contest, now: int): (r: ContestStatus)
    ensures r == Upcoming <==> now < c.startTime
    ensures r == Ongoing <==> c.startTime <= now <= c.endTime
    ensures r == Completed <==> c.startTime <= now && c.endTime < now
  {
    if now < c.startTime then Upcoming
    else if c.startTime <= now <= c.endTime then Ongoing
    else Completed
  }

  /** As time passes a contest only moves forward: upcoming, then ongoing, then completed. */
  lemma StatusMonotone(c: Contest, t1: int, t2: int)
    requires t1 <= t2
    ensures StatusAt(c, t1) == Completed ==> StatusAt(c, t2) == Completed
    ensures StatusAt(c, t2) == Upcoming ==> StatusAt(c, t1) == Upcoming
  {
  }

  /** The `durationMinutes` virtual: `Math.ceil((end - start) / 60000)`. */
  function DurationMinutes(c: Contest): (m: int)
    ensures (m - 1) * 60000 < c.endTime - c.startTime <= m * 60000
  {
    CeilDiv(c.endTime - c.startTime, 60000)
  }

  /** A contest of whole minutes lasts exactly that many minutes; one more millisecond adds a minute. */
  lemma DurationExact(c: Contest, k: int)
    requires c.endTime - c.startTime == k * 60000
    ensures DurationMinutes(c) == k
    ensures DurationMinutes(c.(endTime := c.endTime + 1)) == k + 1
  {
    var m := DurationMinutes(c);
    assert (m - 1) * 60000 < k * 60000 <= m * 60000;
    assert m - 1 < k <= m;
    var m2 := DurationMinutes(c.(endTime := c.endTime + 1));
    assert (m2 - 1) * 60000 < k * 60000 + 1 <= m2 * 60000;
    assert m2 - 1 <= k < m2;
  }
}
