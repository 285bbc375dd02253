/**
 * `getDashboardStats`: the requester's solved count, submission count, rank
 * and day streak, progress per difficulty, the three most recently solved
 * problems and every problem marked solved or unsolved. Times are integer
 * milliseconds; a calendar day is a UTC day number.
 */
module Dashboard {
  import opened Wrappers
  import opened Pagination
  import opened Models
  import opened Seqs
  import opened Problems

  // ----- problemsSolved and submissions -----

  /** The problems a user has solved, as a set: `$addToSet: "$problem"` over the accepted submissions. */
  function SolvedSet(subs: seq<Submission>, user: Id): set<Id> {
    set k | 0 <= k < |subs| && SolvedBy(subs[k], user) :: subs[k].problem
  }

  /** `problemsSolved`: the length of `Submission.distinct('problem', …)`. */
  function ProblemsSolved(subs: seq<Submission>, user: Id): nat {
    |AcceptedProblemIds(subs, user)|
  }

  /** `problemsSolved` is the number of distinct problems the user has an accepted submission for. */
  lemma ProblemsSolvedCounts(subs: seq<Submission>, user: Id)
    ensures ProblemsSolved(subs, user) == |SolvedSet(subs, user)|
  {
    var ids := AcceptedProblemIds(subs, user);
    assert Elems(ids) == SolvedSet(subs, user) by {
      forall x | x in Elems(ids) ensures x in SolvedSet(subs, user) {
        var i :| 0 <= i < |ids| && ids[i] == x;
        var k :| 0 <= k < |subs| && SolvedBy(subs[k], user) && subs[k].problem == ids[i];
      }
      forall x | x in SolvedSet(subs, user) ensures x in Elems(ids) {
        var k :| 0 <= k < |subs| && SolvedBy(subs[k], user) && subs[k].problem == x;
        assert x in ids;
      }
    }
    DistinctCard(ids);
  }

  /** `countDocuments({ user })`. */
  function TotalSubmissions(subs: seq<Submission>, user: Id): (n: nat)
    ensures n <= |subs|
  {
    Count(subs, (s: Submission) => s.user == user)
  }

  // ----- progress -----

  datatype Progress = Progress(solved: nat, total: nat)

  datatype ProgressByDifficulty = ProgressByDifficulty(easy: Progress, medium: Progress, hard: Progress)

  /** The problems of difficulty `d` and, among them, those whose id is in `solved`. */
  function ProgressOf(problems: seq<Problem>, solved: seq<Id>, d: Difficulty): (r: Progress)
    ensures r.solved <= r.total <= |problems|
  {
    CountMonotone(problems, (p: Problem) => p.difficulty == d && p.id in solved, (p: Problem) => p.difficulty == d);
    Progress(Count(problems, (p: Problem) => p.difficulty == d && p.id in solved),
             Count(problems, (p: Problem) => p.difficulty == d))
  }

  /** One more problem of a difficulty, solved or not. */
  function Tick(pr: Progress, solved: bool): Progress {
    Progress(pr.solved + (if solved then 1 else 0), pr.total + 1)
  }

  /** The step of the `forEach`: only the counter of the problem's own difficulty moves. */
  lemma ProgressStep(problems: seq<Problem>, solved: seq<Id>, i: nat, d: Difficulty)
    requires i < |problems|
    ensures ProgressOf(problems[..i + 1], solved, d) ==
      if problems[i].difficulty == d then Tick(ProgressOf(problems[..i], solved, d), problems[i].id in solved)
      else ProgressOf(problems[..i], solved, d)
  {
    assert problems[..i + 1] == problems[..i] + [problems[i]];
    CountSnoc(problems[..i], problems[i], (p: Problem) => p.difficulty == d && p.id in solved);
    CountSnoc(problems[..i], problems[i], (p: Problem) => p.difficulty == d);
  }

  /**
   * The `progress` loop: every problem is counted under its difficulty (the
   * schema's enum makes `p.difficulty in progress` always hold), and as
   * solved when its id is among the solved ids.
   */
  method ComputeProgress(problems: seq<Problem>, solved: seq<Id>) returns (progress: ProgressByDifficulty)
    ensures progress.easy == ProgressOf(problems, solved, Easy)
    ensures progress.medium == ProgressOf(problems, solved, Medium)
    ensures progress.hard == ProgressOf(problems, solved, Hard)
    ensures progress.easy.total + progress.medium.total + progress.hard.total == |problems|
  {
    var easy, medium, hard := Progress(0, 0), Progress(0, 0), Progress(0, 0);
    for i := 0 to |problems|
      invariant easy == ProgressOf(problems[..i], solved, Easy)
      invariant medium == ProgressOf(problems[..i], solved, Medium)
      invariant hard == ProgressOf(problems[..i], solved, Hard)
    {
      var p := problems[i];
      var isSolved := p.id in solved;
      ProgressStep(problems, solved, i, Easy);
      ProgressStep(problems, solved, i, Medium);
      ProgressStep(problems, solved, i, Hard);
      match p.difficulty
      case Easy => easy := Tick(easy, isSolved);
      case Medium => medium := Tick(medium, isSolved);
      case Hard => hard := Tick(hard, isSolved);
    }
    assert problems[..|problems|] == problems;
    TotalsAddUp(problems, solved);
    progress := ProgressByDifficulty(easy, medium, hard);
  }

  /** Every problem has exactly one of the three difficulties, so the totals add up to the number of problems. */
  lemma {:induction false} TotalsAddUp(problems: seq<Problem>, solved: seq<Id>)
    ensures ProgressOf(problems, solved, Easy).total + ProgressOf(problems, solved, Medium).total
      + ProgressOf(problems, solved, Hard).total == |problems|
    decreases |problems|
  {
    if problems != [] {
      var n := |problems| - 1;
      TotalsAddUp(problems[..n], solved);
      assert problems[..n][..n] == problems[..n];
      ProgressStep(problems, solved, n, Easy);
      ProgressStep(problems, solved, n, Medium);
      ProgressStep(problems, solved, n, Hard);
      assert problems[..n + 1] == problems;
    }
  }

  // ----- recentProblems -----

  /** One group of the aggregate: a solved problem with its latest accepted submission. */
  datatype RecentGroup = RecentGroup(problem: Id, submissionId: Id, lastAttempted: int)

  /** The `$first` of a problem's group after `$sort: { createdAt: -1 }`: its latest submission. */
  function LatestOf(subs: seq<Submission>, pid: Id): (r: Option<Submission>)
    ensures r.None? <==> forall i :: 0 <= i < |subs| ==> subs[i].problem != pid
    ensures r.Some? ==> r.value in subs && r.value.problem == pid
    ensures r.Some? ==> forall i :: 0 <= i < |subs| && subs[i].problem == pid ==> subs[i].submittedAt <= r.value.submittedAt
    decreases |subs|
  {
    if subs == [] then None
    else
      var rest := LatestOf(subs[1..], pid);
      assert forall i :: 1 <= i < |subs| ==> subs[i] == subs[1..][i - 1];
      if subs[0].problem != pid then rest
      else if rest.None? || subs[0].submittedAt >= rest.value.submittedAt then Some(subs[0])
      else rest
  }

  /** The group of problem `pid`; a problem without a group has none, and the placeholder is never used. */
  function GroupFor(subs: seq<Submission>, pid: Id): RecentGroup {
    match LatestOf(subs, pid)
    case Some(s) => RecentGroup(pid, s.id, s.submittedAt)
    case None => RecentGroup(pid, "", 0)
  }

  function RecentKey(g: RecentGroup): Key {
    Key(-g.lastAttempted, 0)
  }

  /** The accepted submissions of the user, the `$match` stage. */
  function SolvedSubmissions(subs: seq<Submission>, user: Id): seq<Submission> {
    Filter(subs, (s: Submission) => SolvedBy(s, user))
  }

  /** The ids of the problems the user solved, one each: the `$group` keys. */
  function SolvedIds(subs: seq<Submission>, user: Id): seq<Id> {
    Distinct(Map(SolvedSubmissions(subs, user), (s: Submission) => s.problem))
  }

  /** The `$group` stage: one group per solved problem. */
  function Groups(subs: seq<Submission>, user: Id): seq<RecentGroup> {
    var solved := SolvedSubmissions(subs, user);
    Map(SolvedIds(subs, user), (pid: Id) => GroupFor(solved, pid))
  }

  /** The groups, sorted most recent first. */
  function RecentGroups(subs: seq<Submission>, user: Id): seq<RecentGroup> {
    SortBy(Groups(subs, user), RecentKey)
  }

  /** The `$limit: 3` stage. */
  function TopGroups(subs: seq<Submission>, user: Id): seq<RecentGroup> {
    var gs := RecentGroups(subs, user);
    gs[..Min(3, |gs|)]
  }

  /** Whether a group's problem is among the existing ones. */
  function InCatalog(problems: set<Id>): RecentGroup -> bool {
    (g: RecentGroup) => g.problem in problems
  }

  /**
   * `recentProblems`: the first three groups (`$limit: 3`), then those whose
   * problem still exists (`problems` holds the existing ids); a missing
   * problem is skipped after the limit, so fewer than three may remain.
   */
  function RecentProblems(subs: seq<Submission>, user: Id, problems: set<Id>): (r: seq<RecentGroup>)
    ensures |r| <= 3
    ensures forall i :: 0 <= i < |r| ==> r[i].problem in problems && r[i] in TopGroups(subs, user)
    ensures forall g :: g in TopGroups(subs, user) && g.problem in problems ==> g in r
  {
    var top := TopGroups(subs, user);
    var r := Filter(top, InCatalog(problems));
    forall g | g in top && g.problem in problems ensures g in r {
      var k :| 0 <= k < |top| && top[k] == g;
      assert InCatalog(problems)(top[k]);
    }
    r
  }

  /** A group is the latest accepted submission of the user for its problem. */
  ghost predicate LatestGroup(subs: seq<Submission>, user: Id, g: RecentGroup) {
    var solved := SolvedSubmissions(subs, user);
    && g == GroupFor(solved, g.problem)
    && exists k :: 0 <= k < |solved| && solved[k].problem == g.problem
  }

  lemma GroupsCorrect(subs: seq<Submission>, user: Id)
    ensures NoDuplicates(Groups(subs, user))
    ensures forall i :: 0 <= i < |Groups(subs, user)| ==> LatestGroup(subs, user, Groups(subs, user)[i])
  {
    var solved := SolvedSubmissions(subs, user);
    var names := Map(solved, (s: Submission) => s.problem);
    var pids := SolvedIds(subs, user);
    var gs := Groups(subs, user);
    forall i | 0 <= i < |gs| ensures LatestGroup(subs, user, gs[i]) && gs[i].problem == pids[i] {
      var j :| 0 <= j < |names| && names[j] == pids[i];
    }
    forall i, j | 0 <= i < j < |gs| ensures gs[i] != gs[j] {
      assert gs[i].problem == pids[i] && gs[j].problem == pids[j];
    }
  }

  /** The sorted groups are the latest submissions of distinct problems, most recent first. */
  lemma RecentGroupsCorrect(subs: seq<Submission>, user: Id)
    ensures SortedBy(RecentGroups(subs, user), RecentKey)
    ensures NoDuplicates(RecentGroups(subs, user))
    ensures forall i :: 0 <= i < |RecentGroups(subs, user)| ==> LatestGroup(subs, user, RecentGroups(subs, user)[i])
  {
    var base := Groups(subs, user);
    var gs := RecentGroups(subs, user);
    GroupsCorrect(subs, user);
    PermutationDistinct(gs, base);
    PermutationPreserves(gs, base, (g: RecentGroup) => LatestGroup(subs, user, g));
  }

  /**
   * What a reported group claims: its submission is an accepted submission of
   * the user for its problem, made at the reported time, and no accepted
   * submission of the user for that problem is later.
   */
  ghost predicate ReportsLatest(subs: seq<Submission>, user: Id, g: RecentGroup) {
    && (exists k :: 0 <= k < |subs| && SolvedBy(subs[k], user) && subs[k].problem == g.problem
          && subs[k].submittedAt == g.lastAttempted && subs[k].id == g.submissionId)
    && forall k :: 0 <= k < |subs| && SolvedBy(subs[k], user) && subs[k].problem == g.problem ==>
         subs[k].submittedAt <= g.lastAttempted
  }

  lemma LatestReported(subs: seq<Submission>, user: Id, g: RecentGroup)
    requires LatestGroup(subs, user, g)
    ensures ReportsLatest(subs, user, g)
  {
    var solved := SolvedSubmissions(subs, user);
    var latest := LatestOf(solved, g.problem).value;
    var k :| 0 <= k < |subs| && subs[k] == latest;
    forall k' | 0 <= k' < |subs| && SolvedBy(subs[k'], user) && subs[k'].problem == g.problem
      ensures subs[k'].submittedAt <= g.lastAttempted
    {
      assert subs[k'] in solved;
    }
  }

  /** The first three groups keep the properties of all of them. */
  lemma TopGroupsCorrect(subs: seq<Submission>, user: Id)
    ensures |TopGroups(subs, user)| <= 3
    ensures SortedBy(TopGroups(subs, user), RecentKey)
    ensures NoDuplicates(TopGroups(subs, user))
    ensures forall i :: 0 <= i < |TopGroups(subs, user)| ==> LatestGroup(subs, user, TopGroups(subs, user)[i])
  {
    var gs := RecentGroups(subs, user);
    var top := TopGroups(subs, user);
    RecentGroupsCorrect(subs, user);
    assert forall i :: 0 <= i < |top| ==> top[i] == gs[i];
  }

  /** The entries of `recentProblems` are groups of existing problems, each the latest for its problem. */
  lemma RecentEntriesLatest(subs: seq<Submission>, user: Id, problems: set<Id>)
    ensures forall i :: 0 <= i < |RecentProblems(subs, user, problems)| ==>
      RecentProblems(subs, user, problems)[i].problem in problems && LatestGroup(subs, user, RecentProblems(subs, user, problems)[i])
  {
    var top := TopGroups(subs, user);
    var r := RecentProblems(subs, user, problems);
    TopGroupsCorrect(subs, user);
    forall i | 0 <= i < |r| ensures r[i].problem in problems && LatestGroup(subs, user, r[i]) {
      assert InCatalog(problems)(r[i]);
      var t :| 0 <= t < |top| && top[t] == r[i];
    }
  }

  /** Two entries of `recentProblems` are for two different problems. */
  lemma RecentEntriesDistinct(subs: seq<Submission>, user: Id, problems: set<Id>)
    ensures forall i, j :: 0 <= i < j < |RecentProblems(subs, user, problems)| ==>
      RecentProblems(subs, user, problems)[i].problem != RecentProblems(subs, user, problems)[j].problem
  {
    var solved := SolvedSubmissions(subs, user);
    var r := RecentProblems(subs, user, problems);
    TopGroupsCorrect(subs, user);
    FilterDistinct(TopGroups(subs, user), InCatalog(problems));
    RecentEntriesLatest(subs, user, problems);
    forall i, j | 0 <= i < j < |r| ensures r[i].problem != r[j].problem {
      assert r[i] == GroupFor(solved, r[i].problem) && r[j] == GroupFor(solved, r[j].problem);
    }
  }

  /**
   * `recentProblems` holds at most three entries, of distinct existing
   * problems, most recent first, each the latest accepted submission of the
   * user for its problem.
   */
  lemma RecentProblemsCorrect(subs: seq<Submission>, user: Id, problems: set<Id>)
    ensures |RecentProblems(subs, user, problems)| <= 3
    ensures SortedBy(RecentProblems(subs, user, problems), RecentKey)
    ensures forall i, j :: 0 <= i < j < |RecentProblems(subs, user, problems)| ==>
      RecentProblems(subs, user, problems)[i].problem != RecentProblems(subs, user, problems)[j].problem
    ensures forall i :: 0 <= i < |RecentProblems(subs, user, problems)| ==>
      RecentProblems(subs, user, problems)[i].problem in problems && ReportsLatest(subs, user, RecentProblems(subs, user, problems)[i])
  {
    var r := RecentProblems(subs, user, problems);
    TopGroupsCorrect(subs, user);
    FilterSorted(TopGroups(subs, user), InCatalog(problems), RecentKey);
    RecentEntriesDistinct(subs, user, problems);
    RecentEntriesLatest(subs, user, problems);
    forall i | 0 <= i < |r| ensures ReportsLatest(subs, user, r[i]) {
      LatestReported(subs, user, r[i]);
    }
  }

  // ----- rank -----

  /** The users with an accepted submission who have solved more than `mine` problems. */
  function Ahead(subs: seq<Submission>, mine: nat): set<Id> {
    set k | 0 <= k < |subs| && subs[k].status == Accepted && |SolvedSet(subs, subs[k].user)| > mine :: subs[k].user
  }

  /**
   * `rank`: one more than the number of users whose distinct accepted
   * problems outnumber the requester's (`$count` yields no document when
   * there are none, which reads as rank 1).
   */
  function Rank(subs: seq<Submission>, mine: nat): (rank: nat)
    ensures rank >= 1
  {
    1 + |Ahead(subs, mine)|
  }

  /** Rank 1 exactly when no user has solved more problems. */
  lemma RankOne(subs: seq<Submission>, mine: nat)
    ensures Rank(subs, mine) == 1 <==> forall k :: 0 <= k < |subs| && subs[k].status == Accepted ==> |SolvedSet(subs, subs[k].user)| <= mine
  {
    if exists k :: 0 <= k < |subs| && subs[k].status == Accepted && |SolvedSet(subs, subs[k].user)| > mine {
      var k :| 0 <= k < |subs| && subs[k].status == Accepted && |SolvedSet(subs, subs[k].user)| > mine;
      assert subs[k].user in Ahead(subs, mine);
    } else {
      assert Ahead(subs, mine) == {};
    }
  }

  /** Solving more problems never makes the rank worse. */
  lemma RankMonotone(subs: seq<Submission>, mine: nat, more: nat)
    requires mine <= more
    ensures Rank(subs, more) <= Rank(subs, mine)
  {
    var a, b := Ahead(subs, more), Ahead(subs, mine);
    assert a <= b;
    assert b == a + (b - a);
    assert |b| == |a| + |b - a|;
  }

  // ----- streak -----

  /** Milliseconds in a day, `1000 * 60 * 60 * 24`. */
  const DayMs := 86400000

  /** `toISOString().split('T')[0]` as a day number: the UTC day of a time. */
  function Day(t: int): int {
    FloorDiv(t, DayMs)
  }

  /** `Math.ceil` of the difference of two midnights, in days, is the difference of their day numbers. */
  lemma WholeDays(a: int, b: int)
    ensures CeilDiv(a * DayMs - b * DayMs, DayMs) == a - b
  {
    var q := CeilDiv(a * DayMs - b * DayMs, DayMs);
    assert a * DayMs - b * DayMs == (a - b) * DayMs;
    assert (q - 1) * DayMs < (a - b) * DayMs <= q * DayMs;
    assert q - 1 < a - b <= q;
  }

  /** The sort key of `sort({ createdAt: -1 })`: the latest submission first. */
  function LatestFirst(s: Submission): Key {
    Key(-s.submittedAt, 0)
  }

  /** Later times fall on the same or a later day. */
  lemma DayMonotone(a: int, b: int)
    requires b <= a
    ensures Day(b) <= Day(a)
  {
    assert Day(b) * DayMs <= b <= a < (Day(a) + 1) * DayMs;
  }

  /** The days of submissions sorted latest first never increase. */
  lemma DaysNonIncreasing(sorted: seq<Submission>, days: seq<int>)
    requires SortedBy(sorted, LatestFirst)
    requires |days| == |sorted| && forall i :: 0 <= i < |sorted| ==> days[i] == Day(sorted[i].submittedAt)
    ensures forall i, j :: 0 <= i < j < |days| ==> days[i] >= days[j]
  {
    forall i, j | 0 <= i < j < |days| ensures days[i] >= days[j] {
      assert KeyLe(LatestFirst(sorted[i]), LatestFirst(sorted[j]));
      DayMonotone(sorted[i].submittedAt, sorted[j].submittedAt);
    }
  }

  /** The days that occur in `days` are exactly the days of the submissions in `subs`. */
  lemma DaysOfSubmissions(subs: seq<Submission>, sorted: seq<Submission>, days: seq<int>, d: int)
    requires multiset(sorted) == multiset(subs)
    requires |days| == |sorted| && forall i :: 0 <= i < |sorted| ==> days[i] == Day(sorted[i].submittedAt)
    ensures d in days <==> exists s :: s in subs && Day(s.submittedAt) == d
  {
    if d in days {
      var k :| 0 <= k < |days| && days[k] == d;
      assert sorted[k] in multiset(subs);
    }
    if exists s :: s in subs && Day(s.submittedAt) == d {
      var s :| s in subs && Day(s.submittedAt) == d;
      assert s in multiset(sorted);
      var k :| 0 <= k < |sorted| && sorted[k] == s;
      assert days[k] == d;
    }
  }

  /** Removing repeats from the days of `sorted` leaves each day of `subs` once, latest first. */
  lemma DistinctDays(subs: seq<Submission>, sorted: seq<Submission>, days: seq<int>)
    requires SortedBy(sorted, LatestFirst) && multiset(sorted) == multiset(subs)
    requires |days| == |sorted| && forall i :: 0 <= i < |sorted| ==> days[i] == Day(sorted[i].submittedAt)
    ensures forall i, j :: 0 <= i < j < |Distinct(days)| ==> Distinct(days)[i] > Distinct(days)[j]
    ensures forall d :: d in Distinct(days) <==> exists s :: s in subs && Day(s.submittedAt) == d
  {
    DaysNonIncreasing(sorted, days);
    DistinctDescending(days);
    var r := Distinct(days);
    forall d ensures d in r <==> exists s :: s in subs && Day(s.submittedAt) == d {
      DaysOfSubmissions(subs, sorted, days, d);
      if d in r {
        var i :| 0 <= i < |r| && r[i] == d;
      }
      if d in days {
        var k :| 0 <= k < |days| && days[k] == d;
      }
    }
  }

  /**
   * The distinct days of the user's accepted submissions, most recent first:
   * `[...new Set(dates)]` over the submissions sorted by `createdAt`
   * descending.
   */
  function SubmissionDays(subs: seq<Submission>, user: Id): (days: seq<int>)
    ensures NoDuplicates(days)
    ensures |days| <= |SolvedSubmissions(subs, user)|
    ensures forall i, j :: 0 <= i < j < |days| ==> days[i] > days[j]
    ensures forall d :: d in days <==> exists s :: s in SolvedSubmissions(subs, user) && Day(s.submittedAt) == d
  {
    var solved := SolvedSubmissions(subs, user);
    var sorted := SortBy(solved, LatestFirst);
    var all := Map(sorted, (s: Submission) => Day(s.submittedAt));
    DistinctDays(solved, sorted, all);
    Distinct(all)
  }

  /**
   * What the streak of `dates` (day numbers, most recent first) on day
   * `today` is: 0 unless the latest day is today or yesterday, otherwise the
   * length of the run of consecutive days that starts there.
   */
  predicate IsStreak(dates: seq<int>, today: int, streak: nat) {
    && streak <= |dates|
    && (streak == 0 <==> dates == [] || (dates[0] != today && dates[0] != today - 1))
    && (forall k :: 0 < k < streak ==> dates[k - 1] - dates[k] == 1)
    && (0 < streak < |dates| ==> dates[streak - 1] - dates[streak] != 1)
  }

  /** The description pins the streak down: there is at most one. */
  lemma StreakUnique(dates: seq<int>, today: int, a: nat, b: nat)
    requires IsStreak(dates, today, a) && IsStreak(dates, today, b)
    ensures a == b
  {
  }

  /** The streak loop of `getDashboardStats`. */
  method Streak(dates: seq<int>, today: int) returns (streak: nat)
    ensures IsStreak(dates, today, streak)
  {
    streak := 0;
    if |dates| > 0 {
      if dates[0] == today || dates[0] == today - 1 {
        streak := 1;
        var lastDate := dates[0] * DayMs;
        for i := 1 to |dates|
          invariant streak == i
          invariant lastDate == dates[i - 1] * DayMs
          invariant forall k :: 0 < k < i ==> dates[k - 1] - dates[k] == 1
        {
          var currentDate := dates[i] * DayMs;
          WholeDays(dates[i - 1], dates[i]);
          var diffDays := CeilDiv(lastDate - currentDate, DayMs);
          if diffDays == 1 {
            streak := streak + 1;
            lastDate := currentDate;
          } else {
            break;
          }
        }
      }
    }
  }

  // ----- allProblemsWithStatus -----

  datatype ProblemStatus = ProblemStatus(id: Id, title: string, slug: string, difficulty: Difficulty, solved: bool)

  /** Every problem, marked `'Solved'` exactly when its id is among the solved ids. */
  function WithStatus(problems: seq<Problem>, solved: seq<Id>): (r: seq<ProblemStatus>)
    ensures |r| == |problems|
    ensures forall i :: 0 <= i < |r| ==>
      && r[i].id == problems[i].id && r[i].title == problems[i].title
      && r[i].slug == problems[i].slug && r[i].difficulty == problems[i].difficulty
      && (r[i].solved <==> problems[i].id in solved)
  {
    Map(problems, (p: Problem) => ProblemStatus(p.id, p.title, p.slug, p.difficulty, p.id in solved))
  }

  /** The solved counters of the three difficulties added up. */
  function SolvedTotal(problems: seq<Problem>, solved: seq<Id>): nat {
    ProgressOf(problems, solved, Easy).solved + ProgressOf(problems, solved, Medium).solved
      + ProgressOf(problems, solved, Hard).solved
  }

  /** One more problem adds one to exactly one solved counter when it is solved, and nothing otherwise. */
  lemma SolvedTotalStep(problems: seq<Problem>, solved: seq<Id>, i: nat)
    requires i < |problems|
    ensures SolvedTotal(problems[..i + 1], solved) == SolvedTotal(problems[..i], solved) + (if problems[i].id in solved then 1 else 0)
  {
    ProgressStep(problems, solved, i, Easy);
    ProgressStep(problems, solved, i, Medium);
    ProgressStep(problems, solved, i, Hard);
  }

  /** The number of entries marked solved. */
  function MarkedSolved(r: seq<ProblemStatus>): nat {
    Count(r, (s: ProblemStatus) => s.solved)
  }

  lemma MarkedSolvedStep(problems: seq<Problem>, solved: seq<Id>, i: nat)
    requires i < |problems|
    ensures MarkedSolved(WithStatus(problems[..i + 1], solved))
      == MarkedSolved(WithStatus(problems[..i], solved)) + (if problems[i].id in solved then 1 else 0)
  {
    var a, b := WithStatus(problems[..i], solved), WithStatus(problems[..i + 1], solved);
    assert b == a + [b[i]];
    CountSnoc(a, b[i], (s: ProblemStatus) => s.solved);
  }

  /** The progress counters and the status list agree: the solved counts add up to the problems marked solved. */
  lemma {:induction false} ProgressMatchesStatus(problems: seq<Problem>, solved: seq<Id>)
    ensures SolvedTotal(problems, solved) == MarkedSolved(WithStatus(problems, solved))
    decreases |problems|
  {
    if problems != [] {
      var n := |problems| - 1;
      var init := problems[..n];
      ProgressMatchesStatus(init, solved);
      assert problems[..n][..n] == init;
      SolvedTotalStep(problems, solved, n);
      MarkedSolvedStep(problems, solved, n);
      assert problems[..n + 1] == problems;
    } else {
      assert WithStatus(problems, solved) == [];
    }
  }

  // ----- getDashboardStats -----

  datatype Stats = Stats(problemsSolved: nat, submissions: nat, rank: nat, streak: nat)

  datatype DashboardData = DashboardData(stats: Stats, progress: ProgressByDifficulty,
                                         recentProblems: seq<RecentGroup>, allProblemsWithStatus: seq<ProblemStatus>)

  /**
   * `getDashboardStats` for `user` at time `now`: `subs` is the submissions
   * collection and `problems` the problems collection.
   */
  method DashboardStats(subs: seq<Submission>, problems: seq<Problem>, user: Id, now: int) returns (d: DashboardData)
    ensures d.stats.problemsSolved == |SolvedSet(subs, user)|
    ensures d.stats.submissions == TotalSubmissions(subs, user)
    ensures d.stats.rank == Rank(subs, d.stats.problemsSolved)
    ensures IsStreak(SubmissionDays(subs, user), Day(now), d.stats.streak)
    ensures d.progress.easy == ProgressOf(problems, AcceptedProblemIds(subs, user), Easy)
    ensures d.progress.medium == ProgressOf(problems, AcceptedProblemIds(subs, user), Medium)
    ensures d.progress.hard == ProgressOf(problems, AcceptedProblemIds(subs, user), Hard)
    ensures d.progress.easy.total + d.progress.medium.total + d.progress.hard.total == |problems|
    ensures d.progress.easy.solved + d.progress.medium.solved + d.progress.hard.solved
      == MarkedSolved(d.allProblemsWithStatus)
    ensures d.recentProblems == RecentProblems(subs, user, set p | p in problems :: p.id)
    ensures |d.recentProblems| <= 3
    ensures d.allProblemsWithStatus == WithStatus(problems, AcceptedProblemIds(subs, user))
  {
    var solvedProblemIds := AcceptedProblemIds(subs, user);
    var problemsSolved := |solvedProblemIds|;
    ProblemsSolvedCounts(subs, user);
    var totalSubmissions := TotalSubmissions(subs, user);
    var progress := ComputeProgress(problems, solvedProblemIds);
    var recentProblems := RecentProblems(subs, user, set p | p in problems :: p.id);
    RecentProblemsCorrect(subs, user, set p | p in problems :: p.id);
    var rank := Rank(subs, problemsSolved);
    var days := SubmissionDays(subs, user);
    var streak := Streak(days, Day(now));
    var allProblemsWithStatus := WithStatus(problems, solvedProblemIds);
    ProgressMatchesStatus(problems, solvedProblemIds);
    d := DashboardData(Stats(problemsSolved, totalSubmissions, rank, streak), progress, recentProblems, allProblemsWithStatus);
  }
}
