/**
 * `getContestLeaderboard`: the fold over a contest's submissions that scores
 * each user, and the two-key sort of the resulting rows.
 *
 * The fold keeps the handler's three objects `userPoints`,
 * `userSolvedProblems` (a `Set` per user, kept here as a sequence in
 * insertion order) and `userLastAcceptedTime`, plus the insertion order of
 * their keys, which `Object.keys` reports. The handler resets a user's entry
 * whenever `!userPoints[userId]` holds, which is also true for a user with 0
 * points (README, Findings); `Variant.Corrected` resets only a user seen for
 * the first time.
 */
module ContestLeaderboard {
  import opened Wrappers
  import opened Models
  import opened Seqs

  /** `contest.problems.find(p => p.problem == problemId)?.points || 0`. */
  function PointsOf(problems: seq<ContestProblem>, p: Id): (n: nat)
    ensures (forall i :: 0 <= i < |problems| ==> problems[i].problem != p) ==> n == 0
    ensures forall i :: (0 <= i < |problems| && problems[i].problem == p &&
      forall j :: 0 <= j < i ==> problems[j].problem != p) ==> n == problems[i].points
    decreases |problems|
  {
    if problems == [] then 0
    else if problems[0].problem == p then problems[0].points
    else PointsOf(problems[1..], p)
  }

  /** The points of a list of problems, summed in list order. */
  function SumPoints(problems: seq<ContestProblem>, ps: seq<Id>): nat
    decreases |ps|
  {
    if ps == [] then 0 else SumPoints(problems, ps[..|ps| - 1]) + PointsOf(problems, ps[|ps| - 1])
  }

  /** The fold's state. */
  datatype Tally = Tally(users: seq<Id>, points: map<Id, int>, solved: map<Id, seq<Id>>, last: map<Id, int>)

  const EmptyTally := Tally([], map[], map[], map[])

  /** The three objects always have the same keys, which are the listed users. */
  ghost predicate WellFormed(t: Tally) {
    t.points.Keys == Elems(t.users) && t.solved.Keys == Elems(t.users) && t.last.Keys == Elems(t.users)
  }

  /** Whether the fold (re)initialises the entry of user `u`: `!userPoints[userId]`. */
  predicate Resets(v: Variant, t: Tally, u: Id) {
    u !in t.points || (v == AsWritten && t.points[u] == 0)
  }

  /** The reset at the head of the `forEach` callback, which (re)initialises the user's entry. */
  function InitEntry(v: Variant, t: Tally, u: Id): (t1: Tally)
    requires WellFormed(t)
    ensures WellFormed(t1) && u in t1.points
  {
    if Resets(v, t, u) then
      var users := if u in t.points then t.users else t.users + [u];
      assert Elems(users) == Elems(t.users) + {u};
      Tally(users, t.points[u := 0], t.solved[u := []], t.last[u := 0])
    else t
  }

  /** The rest of the callback: an accepted submission for a problem not yet solved scores. */
  function Score(problems: seq<ContestProblem>, t1: Tally, s: Submission): (t2: Tally)
    requires WellFormed(t1) && s.user in t1.points
    ensures WellFormed(t2) && t2.users == t1.users
  {
    var u := s.user;
    if s.status == Accepted && s.problem !in t1.solved[u] then
      var last := if s.submittedAt > t1.last[u] then t1.last[u := s.submittedAt] else t1.last;
      Tally(t1.users, t1.points[u := t1.points[u] + PointsOf(problems, s.problem)],
            t1.solved[u := t1.solved[u] + [s.problem]], last)
    else t1
  }

  /** The body of the `forEach` callback for one submission. */
  function Visit(v: Variant, problems: seq<ContestProblem>, t: Tally, s: Submission): (t': Tally)
    requires WellFormed(t)
    ensures WellFormed(t')
    ensures t'.users == if s.user in t.users then t.users else t.users + [s.user]
    ensures forall u :: u != s.user && u in t.users ==>
      t'.points[u] == t.points[u] && t'.solved[u] == t.solved[u] && t'.last[u] == t.last[u]
  {
    Score(problems, InitEntry(v, t, s.user), s)
  }

  /** The state after the `forEach` has visited every submission of `subs`, in order. */
  function TallyAll(v: Variant, problems: seq<ContestProblem>, subs: seq<Submission>): (t: Tally)
    ensures WellFormed(t)
    decreases |subs|
  {
    if subs == [] then EmptyTally
    else Visit(v, problems, TallyAll(v, problems, subs[..|subs| - 1]), subs[|subs| - 1])
  }

  /** The fold takes one more step for one more submission. */
  lemma TallyAllStep(v: Variant, problems: seq<ContestProblem>, subs: seq<Submission>, i: nat)
    requires i < |subs|
    ensures TallyAll(v, problems, subs[..i + 1]) == Visit(v, problems, TallyAll(v, problems, subs[..i]), subs[i])
  {
    assert subs[..i + 1][..i] == subs[..i];
  }

  // ----- what the fold computes -----

  /** `u` made some submission among `subs`. */
  ghost predicate Submitted(subs: seq<Submission>, u: Id) {
    exists i :: 0 <= i < |subs| && subs[i].user == u
  }

  /** `u` has an accepted submission for problem `p` among `subs`. */
  ghost predicate AcceptedBy(subs: seq<Submission>, u: Id, p: Id) {
    exists i :: 0 <= i < |subs| && subs[i].user == u && subs[i].problem == p && subs[i].status == Accepted
  }

  /** The distinct problems `u` solved. */
  ghost function AcceptedProblems(subs: seq<Submission>, u: Id): set<Id> {
    set i | 0 <= i < |subs| && subs[i].user == u && subs[i].status == Accepted :: subs[i].problem
  }

  /** Submission `i` is the first accepted one of its user for its problem: the one the fold scores. */
  ghost predicate Counted(subs: seq<Submission>, i: nat)
    requires i < |subs|
  {
    subs[i].status == Accepted && !AcceptedBy(subs[..i], subs[i].user, subs[i].problem)
  }

  /** `x` is the largest time of a counted submission of `u`, or 0 when all are earlier than 1970 or there are none. */
  ghost predicate LastSpec(subs: seq<Submission>, u: Id, x: int) {
    && x >= 0
    && (forall i :: 0 <= i < |subs| && subs[i].user == u && Counted(subs, i) ==> subs[i].submittedAt <= x)
    && (x == 0 || exists i :: 0 <= i < |subs| && subs[i].user == u && Counted(subs, i) && subs[i].submittedAt == x)
  }

  /** The users listed are the distinct submitters, in order of first submission. */
  ghost predicate UsersSpec(subs: seq<Submission>, t: Tally) {
    NoDuplicates(t.users) && forall u :: u in t.users <==> Submitted(subs, u)
  }

  /** Each user's set lists the problems it solved, once each, and its points are their sum. */
  ghost predicate SolvedSpec(problems: seq<ContestProblem>, subs: seq<Submission>, t: Tally) {
    forall u :: u in t.solved ==> SolvedAt(problems, subs, t, u)
  }

  ghost predicate SolvedAt(problems: seq<ContestProblem>, subs: seq<Submission>, t: Tally, u: Id)
    requires u in t.solved
  {
    && NoDuplicates(t.solved[u])
    && u in t.points && t.points[u] == SumPoints(problems, t.solved[u])
    && forall p :: p in t.solved[u] <==> AcceptedBy(subs, u, p)
  }

  ghost predicate LastTimeSpec(subs: seq<Submission>, t: Tally) {
    forall u :: u in t.last ==> LastSpec(subs, u, t.last[u])
  }

  // Facts about one more submission.

  lemma SubmittedStep(subs: seq<Submission>, e: Submission, u: Id)
    ensures Submitted(subs + [e], u) <==> Submitted(subs, u) || e.user == u
  {
    if Submitted(subs, u) {
      var i :| 0 <= i < |subs| && subs[i].user == u;
      assert (subs + [e])[i] == subs[i];
    }
    if Submitted(subs + [e], u) && e.user != u {
      var i :| 0 <= i < |subs + [e]| && (subs + [e])[i].user == u;
      assert subs[i] == (subs + [e])[i];
    }
    if e.user == u {
      assert (subs + [e])[|subs|] == e;
    }
  }

  lemma AcceptedStep(subs: seq<Submission>, e: Submission, u: Id, p: Id)
    ensures AcceptedBy(subs + [e], u, p) <==>
      AcceptedBy(subs, u, p) || (e.user == u && e.problem == p && e.status == Accepted)
  {
    var s' := subs + [e];
    if AcceptedBy(subs, u, p) {
      var i :| 0 <= i < |subs| && subs[i].user == u && subs[i].problem == p && subs[i].status == Accepted;
      assert s'[i] == subs[i];
    }
    if AcceptedBy(s', u, p) && !(e.user == u && e.problem == p && e.status == Accepted) {
      var i :| 0 <= i < |s'| && s'[i].user == u && s'[i].problem == p && s'[i].status == Accepted;
      assert i < |subs| && subs[i] == s'[i];
    }
    if e.user == u && e.problem == p && e.status == Accepted {
      assert s'[|subs|] == e;
    }
  }

  lemma AcceptedIsSubmitted(subs: seq<Submission>, u: Id, p: Id)
    requires AcceptedBy(subs, u, p)
    ensures Submitted(subs, u)
  {
  }

  lemma CountedStep(subs: seq<Submission>, e: Submission)
    ensures forall i :: 0 <= i < |subs| ==> (Counted(subs + [e], i) <==> Counted(subs, i))
    ensures Counted(subs + [e], |subs|) <==> e.status == Accepted && !AcceptedBy(subs, e.user, e.problem)
  {
    forall i | 0 <= i < |subs|
      ensures Counted(subs + [e], i) <==> Counted(subs, i)
    {
      assert (subs + [e])[..i] == subs[..i];
    }
    assert (subs + [e])[..|subs|] == subs;
  }

  // The three invariants of the corrected fold, each by induction over the submissions.

  lemma {:induction false} TallyUsers(v: Variant, problems: seq<ContestProblem>, subs: seq<Submission>)
    ensures UsersSpec(subs, TallyAll(v, problems, subs))
    decreases |subs|
  {
    if subs != [] {
      var s0, e := subs[..|subs| - 1], subs[|subs| - 1];
      assert subs == s0 + [e];
      TallyUsers(v, problems, s0);
      UsersStep(v, problems, s0, e, TallyAll(v, problems, s0));
    }
  }

  lemma UsersStep(v: Variant, problems: seq<ContestProblem>, s0: seq<Submission>, e: Submission, t: Tally)
    requires WellFormed(t) && UsersSpec(s0, t)
    ensures UsersSpec(s0 + [e], Visit(v, problems, t, e))
  {
    var users := Visit(v, problems, t, e).users;
    if e.user !in t.users {
      NoDuplicatesAppend(t.users, e.user);
    }
    forall u ensures u in users <==> Submitted(s0 + [e], u) {
      SubmittedStep(s0, e, u);
    }
  }

  lemma {:induction false} TallySolved(problems: seq<ContestProblem>, subs: seq<Submission>)
    ensures SolvedSpec(problems, subs, TallyAll(Corrected, problems, subs))
    decreases |subs|
  {
    if subs != [] {
      var s0, e := subs[..|subs| - 1], subs[|subs| - 1];
      assert subs == s0 + [e];
      TallySolved(problems, s0);
      TallyUsers(Corrected, problems, s0);
      SolvedStep(problems, s0, e, TallyAll(Corrected, problems, s0));
    }
  }

  lemma SolvedStep(problems: seq<ContestProblem>, s0: seq<Submission>, e: Submission, t: Tally)
    requires WellFormed(t) && UsersSpec(s0, t) && SolvedSpec(problems, s0, t)
    ensures SolvedSpec(problems, s0 + [e], Visit(Corrected, problems, t, e))
  {
    var t' := Visit(Corrected, problems, t, e);
    forall w | w in t'.solved
      ensures SolvedAt(problems, s0 + [e], t', w)
    {
      if w == e.user {
        SolvedSelf(problems, s0, e, t);
      } else {
        SolvedOther(problems, s0, e, t, w);
      }
    }
  }

  lemma SolvedOther(problems: seq<ContestProblem>, s0: seq<Submission>, e: Submission, t: Tally, w: Id)
    requires WellFormed(t) && SolvedSpec(problems, s0, t)
    requires w != e.user && w in Visit(Corrected, problems, t, e).solved
    ensures SolvedAt(problems, s0 + [e], Visit(Corrected, problems, t, e), w)
  {
    var t' := Visit(Corrected, problems, t, e);
    assert w in t.users;
    assert SolvedAt(problems, s0, t, w);
    forall p ensures p in t'.solved[w] <==> AcceptedBy(s0 + [e], w, p) {
      AcceptedStep(s0, e, w, p);
    }
  }

  lemma SolvedSelf(problems: seq<ContestProblem>, s0: seq<Submission>, e: Submission, t: Tally)
    requires WellFormed(t) && UsersSpec(s0, t) && SolvedSpec(problems, s0, t)
    ensures SolvedAt(problems, s0 + [e], Visit(Corrected, problems, t, e), e.user)
  {
    var u := e.user;
    var t' := Visit(Corrected, problems, t, e);
    VisitEntry(Corrected, problems, t, e);
    var isNew := u !in t.points;
    var before: seq<Id> := if isNew then [] else t.solved[u];
    var points0 := if isNew then 0 else t.points[u];
    if isNew {
      forall p ensures !AcceptedBy(s0, u, p) {
        if AcceptedBy(s0, u, p) { AcceptedIsSubmitted(s0, u, p); }
      }
    } else {
      assert SolvedAt(problems, s0, t, u);
    }
    assert points0 == SumPoints(problems, before);
    EntryStep(problems, s0, e, before, points0, t'.solved[u], t'.points[u]);
  }

  /** The solved list and the points of the submitting user after one submission. */
  lemma EntryStep(problems: seq<ContestProblem>, s0: seq<Submission>, e: Submission,
                  before: seq<Id>, points0: int, after: seq<Id>, points1: int)
    requires NoDuplicates(before) && points0 == SumPoints(problems, before)
    requires forall p :: p in before <==> AcceptedBy(s0, e.user, p)
    requires var scores := e.status == Accepted && e.problem !in before;
      && after == (if scores then before + [e.problem] else before)
      && points1 == (if scores then points0 + PointsOf(problems, e.problem) else points0)
    ensures NoDuplicates(after) && points1 == SumPoints(problems, after)
    ensures forall p :: p in after <==> AcceptedBy(s0 + [e], e.user, p)
  {
    if e.status == Accepted && e.problem !in before {
      NoDuplicatesAppend(before, e.problem);
      assert after[..|after| - 1] == before;
    }
    forall p ensures p in after <==> AcceptedBy(s0 + [e], e.user, p) {
      AcceptedStep(s0, e, e.user, p);
    }
  }

  /** What one visit does to the entry of the submitting user. */
  lemma VisitEntry(v: Variant, problems: seq<ContestProblem>, t: Tally, s: Submission)
    requires WellFormed(t)
    ensures var u := s.user;
      var t' := Visit(v, problems, t, s);
      var isNew := Resets(v, t, u);
      var solved0: seq<Id> := if isNew then [] else t.solved[u];
      var points0 := if isNew then 0 else t.points[u];
      var last0 := if isNew then 0 else t.last[u];
      var scores := s.status == Accepted && s.problem !in solved0;
      && t'.solved[u] == (if scores then solved0 + [s.problem] else solved0)
      && t'.points[u] == (if scores then points0 + PointsOf(problems, s.problem) else points0)
      && t'.last[u] == (if scores && s.submittedAt > last0 then s.submittedAt else last0)
  {
  }

  lemma {:induction false} TallyLast(problems: seq<ContestProblem>, subs: seq<Submission>)
    ensures LastTimeSpec(subs, TallyAll(Corrected, problems, subs))
    decreases |subs|
  {
    if subs != [] {
      var s0, e := subs[..|subs| - 1], subs[|subs| - 1];
      assert subs == s0 + [e];
      TallyLast(problems, s0);
      TallyUsers(Corrected, problems, s0);
      TallySolved(problems, s0);
      LastStep(problems, s0, e, TallyAll(Corrected, problems, s0));
    }
  }

  lemma LastStep(problems: seq<ContestProblem>, s0: seq<Submission>, e: Submission, t: Tally)
    requires WellFormed(t) && UsersSpec(s0, t) && SolvedSpec(problems, s0, t) && LastTimeSpec(s0, t)
    ensures LastTimeSpec(s0 + [e], Visit(Corrected, problems, t, e))
  {
    var t' := Visit(Corrected, problems, t, e);
    var s' := s0 + [e];
    var u := e.user;
    CountedStep(s0, e);
    forall w | w in t'.last
      ensures LastSpec(s', w, t'.last[w])
    {
      if w != u {
        var x := t.last[w];
        assert t'.last[w] == x;
        assert LastSpec(s0, w, x);
        forall i | 0 <= i < |s'| && s'[i].user == w && Counted(s', i)
          ensures s'[i].submittedAt <= x
        {
          assert i < |s0| && s'[i] == s0[i];
        }
        if x != 0 {
          var i :| 0 <= i < |s0| && s0[i].user == w && Counted(s0, i) && s0[i].submittedAt == x;
          assert s'[i] == s0[i];
        }
      } else {
        var x: int := if u in t.last then t.last[u] else 0;
        if u !in t.last {
          forall i | 0 <= i < |s0| && s0[i].user == u
            ensures false
          {
            assert Submitted(s0, u);
          }
        }
        assert LastSpec(s0, u, x);
        var counted := e.status == Accepted && !AcceptedBy(s0, u, e.problem);
        assert counted <==> e.status == Accepted && (u !in t.solved || e.problem !in t.solved[u]);
        var x' := t'.last[u];
        assert x' == if counted && e.submittedAt > x then e.submittedAt else x;
        forall i | 0 <= i < |s'| && s'[i].user == u && Counted(s', i)
          ensures s'[i].submittedAt <= x'
        {
          if i < |s0| {
            assert s'[i] == s0[i];
          }
        }
        if x' != 0 {
          if x' == e.submittedAt && counted {
            assert s'[|s0|] == e;
          } else {
            var i :| 0 <= i < |s0| && s0[i].user == u && Counted(s0, i) && s0[i].submittedAt == x;
            assert s'[i] == s0[i];
          }
        }
      }
    }
  }

  // ----- rows and their order -----

  /** One row of the leaderboard. */
  datatype Row = Row(user: Id, points: int, solvedCount: nat, lastAcceptedAt: int)

  function RowsOf(t: Tally): (rows: seq<Row>)
    requires WellFormed(t)
    ensures |rows| == |t.users|
    ensures forall i :: 0 <= i < |rows| ==> rows[i].user == t.users[i]
  {
    seq(|t.users|, i requires 0 <= i < |t.users| =>
      Row(t.users[i], t.points[t.users[i]], |t.solved[t.users[i]]|, t.last[t.users[i]]))
  }

  /** The comparator: points descending, then `lastAcceptedAt` ascending. */
  function RowKey(r: Row): Key {
    Key(-r.points, r.lastAcceptedAt)
  }

  /** The rows in the order the handler sends them. */
  function Standings(v: Variant, problems: seq<ContestProblem>, subs: seq<Submission>): (rows: seq<Row>)
    ensures SortedBy(rows, RowKey)
    ensures multiset(rows) == multiset(RowsOf(TallyAll(v, problems, subs)))
  {
    SortBy(RowsOf(TallyAll(v, problems, subs)), RowKey)
  }

  /**
   * The standings order rows by points, most first, and rows with equal
   * points by the time of their last scoring submission, earliest first;
   * rows equal in both keep the order of `userPoints`' keys, the order in
   * which their users first submitted, as the stable `Array.prototype.sort`
   * keeps them.
   */
  lemma StandingsOrdered(v: Variant, problems: seq<ContestProblem>, subs: seq<Submission>)
    ensures var rows := Standings(v, problems, subs);
      forall i, j :: 0 <= i < j < |rows| ==>
        rows[i].points >= rows[j].points &&
        (rows[i].points == rows[j].points ==> rows[i].lastAcceptedAt <= rows[j].lastAcceptedAt)
    ensures forall k :: Filter(Standings(v, problems, subs), WithKey(RowKey, k)) ==
                        Filter(RowsOf(TallyAll(v, problems, subs)), WithKey(RowKey, k))
  {
    forall k ensures Filter(Standings(v, problems, subs), WithKey(RowKey, k)) ==
                     Filter(RowsOf(TallyAll(v, problems, subs)), WithKey(RowKey, k)) {
      SortStable(RowsOf(TallyAll(v, problems, subs)), RowKey, k);
    }
    var rows := Standings(v, problems, subs);
    assert SortedBy(rows, RowKey);
    forall i, j | 0 <= i < j < |rows|
      ensures rows[i].points >= rows[j].points
      ensures rows[i].points == rows[j].points ==> rows[i].lastAcceptedAt <= rows[j].lastAcceptedAt
    {
      assert KeyLe(RowKey(rows[i]), RowKey(rows[j]));
    }
  }

  /**
   * What a row says about its user: the number of distinct problems solved,
   * the sum of their contest points (each once), and the latest time of a
   * first accepted submission (0 when there is none after 1970).
   */
  ghost predicate RowCorrect(problems: seq<ContestProblem>, subs: seq<Submission>, t: Tally, row: Row) {
    var u := row.user;
    && u in t.solved
    && row.solvedCount == |AcceptedProblems(subs, u)|
    && NoDuplicates(t.solved[u]) && Elems(t.solved[u]) == AcceptedProblems(subs, u)
    && row.points == SumPoints(problems, t.solved[u])
    && LastSpec(subs, u, row.lastAcceptedAt)
  }

  lemma RowOfUser(problems: seq<ContestProblem>, subs: seq<Submission>, t: Tally, i: nat)
    requires WellFormed(t) && SolvedSpec(problems, subs, t) && LastTimeSpec(subs, t)
    requires i < |t.users|
    ensures RowCorrect(problems, subs, t, RowsOf(t)[i])
  {
    var u := t.users[i];
    assert u in Elems(t.users);
    assert SolvedAt(problems, subs, t, u);
    assert LastSpec(subs, u, t.last[u]);
    forall p ensures p in Elems(t.solved[u]) <==> p in AcceptedProblems(subs, u) {
      if p in AcceptedProblems(subs, u) {
        var j :| 0 <= j < |subs| && subs[j].user == u && subs[j].status == Accepted && subs[j].problem == p;
        assert AcceptedBy(subs, u, p);
      }
    }
    assert Elems(t.solved[u]) == AcceptedProblems(subs, u);
    DistinctCard(t.solved[u]);
    var row := RowsOf(t)[i];
    assert row == Row(u, t.points[u], |t.solved[u]|, t.last[u]);
    assert row.solvedCount == |AcceptedProblems(subs, u)|;
    assert row.points == SumPoints(problems, t.solved[u]);
    assert LastSpec(subs, u, row.lastAcceptedAt);
  }

  /** The sorted rows of a tally whose users are the submitters and whose rows are correct. */
  lemma SortedRowsCorrect(problems: seq<ContestProblem>, subs: seq<Submission>, t: Tally)
    requires WellFormed(t) && UsersSpec(subs, t)
    requires forall i :: 0 <= i < |t.users| ==> RowCorrect(problems, subs, t, RowsOf(t)[i])
    ensures var rows := SortBy(RowsOf(t), RowKey);
      && |rows| == |t.users|
      && (forall u :: Submitted(subs, u) <==> exists k :: 0 <= k < |rows| && rows[k].user == u)
      && forall k :: 0 <= k < |rows| ==> RowCorrect(problems, subs, t, rows[k])
  {
    var base := RowsOf(t);
    var rows := SortBy(base, RowKey);
    PermutationPreserves(rows, base, (r: Row) => RowCorrect(problems, subs, t, r));
    PermutationPreserves(rows, base, (r: Row) => r.user in t.users);
    SameElements(base, rows);
    forall u | Submitted(subs, u)
      ensures exists k :: 0 <= k < |rows| && rows[k].user == u
    {
      var i :| 0 <= i < |t.users| && t.users[i] == u;
      var k :| 0 <= k < |rows| && rows[k] == base[i];
    }
  }

  /**
   * With the corrected reset, the standings hold one row for every user who
   * submitted, and only for those, and every row is correct for its user.
   */
  lemma StandingsCorrect(problems: seq<ContestProblem>, subs: seq<Submission>)
    ensures var rows := Standings(Corrected, problems, subs);
      var t := TallyAll(Corrected, problems, subs);
      && |rows| == |t.users|
      && (forall u :: Submitted(subs, u) <==> exists k :: 0 <= k < |rows| && rows[k].user == u)
      && forall k :: 0 <= k < |rows| ==> RowCorrect(problems, subs, t, rows[k])
  {
    var t := TallyAll(Corrected, problems, subs);
    TallyUsers(Corrected, problems, subs);
    TallySolved(problems, subs);
    TallyLast(problems, subs);
    forall i | 0 <= i < |t.users|
      ensures RowCorrect(problems, subs, t, RowsOf(t)[i])
    {
      RowOfUser(problems, subs, t, i);
    }
    SortedRowsCorrect(problems, subs, t);
  }

  // ----- the handler -----

  /** The submissions the handler's query returns: those of the contest made within its window. */
  predicate InWindow(c: Contest, s: Submission) {
    s.contest == Some(c.id) && c.startTime <= s.submittedAt <= c.endTime
  }

  datatype BoardResponse =
    | BoardNotFound          // 404
    | BoardFailed            // 500
    | Board(rows: seq<Row>)  // 200

  /**
   * `getContestLeaderboard`. `found` is the result of `findById`; `all` is
   * the submissions collection in the order the query returns it; `users` and
   * `problems` are the ids that still exist, so that `populate` yields a
   * document. A submission whose user or problem no longer exists makes the
   * callback dereference null and the handler answer 500.
   */
  method Leaderboard(v: Variant, found: Lookup<Contest>, all: seq<Submission>, users: set<Id>, problems: set<Id>)
    returns (r: BoardResponse)
    ensures found.Missing? ==> r == BoardNotFound
    ensures found.LookupFailed? ==> r == BoardFailed
    ensures found.Found? ==>
      var subs := Filter(all, s => InWindow(found.doc, s));
      if forall i :: 0 <= i < |subs| ==> subs[i].user in users && subs[i].problem in problems
      then r == Board(Standings(v, found.doc.problems, subs))
      else r == BoardFailed
  {
    if found.Missing? {
      return BoardNotFound;
    }
    if found.LookupFailed? {
      return BoardFailed;
    }
    var contest := found.doc;
    var submissions := Filter(all, s => InWindow(contest, s));
    var tally := TallySubmissions(v, contest.problems, submissions, users, problems);
    if tally.None? {
      return BoardFailed;
    }
    var rows := RowsOf(tally.value);
    r := Board(SortBy(rows, RowKey));
  }

  /**
   * The `forEach` over the contest's submissions, updating the three objects
   * in place; None when a submission's user or problem was not populated.
   */
  method TallySubmissions(v: Variant, contestProblems: seq<ContestProblem>, submissions: seq<Submission>,
                          users: set<Id>, problems: set<Id>) returns (tally: Option<Tally>)
    ensures tally.Some? <==> forall i :: 0 <= i < |submissions| ==> submissions[i].user in users && submissions[i].problem in problems
    ensures tally.Some? ==> tally.value == TallyAll(v, contestProblems, submissions)
  {
    var userIds: seq<Id> := [];
    var userPoints: map<Id, int> := map[];
    var userSolved: map<Id, seq<Id>> := map[];
    var userLast: map<Id, int> := map[];
    for i := 0 to |submissions|
      invariant Tally(userIds, userPoints, userSolved, userLast) == TallyAll(v, contestProblems, submissions[..i])
      invariant forall j :: 0 <= j < i ==> submissions[j].user in users && submissions[j].problem in problems
    {
      var submission := submissions[i];
      if submission.user !in users || submission.problem !in problems {
        return None;
      }
      assert forall j :: 0 <= j < i + 1 ==> submissions[j].user in users && submissions[j].problem in problems;
      ghost var before := Tally(userIds, userPoints, userSolved, userLast);
      userIds, userPoints, userSolved, userLast := Callback(v, contestProblems, submission, userIds, userPoints, userSolved, userLast);
      TallyAllStep(v, contestProblems, submissions, i);
      assert Tally(userIds, userPoints, userSolved, userLast) == Visit(v, contestProblems, before, submission);
    }
    assert submissions[..|submissions|] == submissions;
    tally := Some(Tally(userIds, userPoints, userSolved, userLast));
  }

  /** The `forEach` callback for one submission, on the three objects and their key order. */
  method Callback(v: Variant, contestProblems: seq<ContestProblem>, submission: Submission,
                  userIds: seq<Id>, userPoints: map<Id, int>, userSolved: map<Id, seq<Id>>, userLast: map<Id, int>)
    returns (userIds': seq<Id>, userPoints': map<Id, int>, userSolved': map<Id, seq<Id>>, userLast': map<Id, int>)
    requires WellFormed(Tally(userIds, userPoints, userSolved, userLast))
    ensures Tally(userIds', userPoints', userSolved', userLast') ==
      Visit(v, contestProblems, Tally(userIds, userPoints, userSolved, userLast), submission)
  {
    userIds', userPoints', userSolved', userLast' := ResetUser(v, submission.user, userIds, userPoints, userSolved, userLast);
    userIds', userPoints', userSolved', userLast' := ScoreSubmission(contestProblems, submission, userIds', userPoints', userSolved', userLast');
  }

  /** The head of the callback: `if (!userPoints[userId])` creates or resets the user's entry. */
  method ResetUser(v: Variant, userId: Id,
                   userIds: seq<Id>, userPoints: map<Id, int>, userSolved: map<Id, seq<Id>>, userLast: map<Id, int>)
    returns (userIds': seq<Id>, userPoints': map<Id, int>, userSolved': map<Id, seq<Id>>, userLast': map<Id, int>)
    requires WellFormed(Tally(userIds, userPoints, userSolved, userLast))
    ensures Tally(userIds', userPoints', userSolved', userLast') ==
      InitEntry(v, Tally(userIds, userPoints, userSolved, userLast), userId)
  {
    userIds', userPoints', userSolved', userLast' := userIds, userPoints, userSolved, userLast;
    if userId !in userPoints' || (v == AsWritten && userPoints'[userId] == 0) {
      if userId !in userPoints' {
        userIds' := userIds' + [userId];
      }
      userPoints' := userPoints'[userId := 0];
      userSolved' := userSolved'[userId := []];
      userLast' := userLast'[userId := 0];
    }
  }

  /** The rest of the callback: an accepted submission for a problem the user has not solved scores. */
  method ScoreSubmission(contestProblems: seq<ContestProblem>, submission: Submission,
                         userIds: seq<Id>, userPoints: map<Id, int>, userSolved: map<Id, seq<Id>>, userLast: map<Id, int>)
    returns (userIds': seq<Id>, userPoints': map<Id, int>, userSolved': map<Id, seq<Id>>, userLast': map<Id, int>)
    requires WellFormed(Tally(userIds, userPoints, userSolved, userLast)) && submission.user in userPoints
    ensures Tally(userIds', userPoints', userSolved', userLast') ==
      Score(contestProblems, Tally(userIds, userPoints, userSolved, userLast), submission)
  {
    userIds', userPoints', userSolved', userLast' := userIds, userPoints, userSolved, userLast;
    var userId := submission.user;
    var problemId := submission.problem;
    if submission.status == Accepted && problemId !in userSolved'[userId] {
      var problemPoint := PointsOf(contestProblems, problemId);
      userPoints' := userPoints'[userId := userPoints'[userId] + problemPoint];
      userSolved' := userSolved'[userId := userSolved'[userId] + [problemId]];
      var submissionTime := submission.submittedAt;
      if submissionTime > userLast'[userId] {
        userLast' := userLast'[userId := submissionTime];
      }
    }
  }

  // ----- the reset on zero points -----

  /** A submission with just the fields the fold reads. */
  function Entry(user: Id, problem: Id, status: Status, at: int): Submission {
    Submission("s", user, problem, Some("c"), CppLang, "", status, [], 0, 0, true, at)
  }

  /** The entry a first submission of `u` creates, in either variant. */
  lemma FirstEntry(v: Variant)
    ensures InitEntry(v, EmptyTally, "u") == Tally(["u"], map["u" := 0], map["u" := []], map["u" := 0])
  {
    assert Resets(v, EmptyTally, "u");
    assert [] + ["u"] == ["u"];
  }

  /** Scoring an accepted submission for a problem worth 0 on that fresh entry. */
  lemma FirstScore()
    ensures Score([ContestProblem("p", 0)], Tally(["u"], map["u" := 0], map["u" := []], map["u" := 0]), Entry("u", "p", Accepted, 5))
      == Tally(["u"], map["u" := 0], map["u" := ["p"]], map["u" := 5])
  {
    assert PointsOf([ContestProblem("p", 0)], "p") == 0;
    assert map["u" := 0]["u" := 5] == map["u" := 5];
    assert map["u" := 0]["u" := 0 + 0] == map["u" := 0];
    var none: seq<Id> := [];
    assert none + ["p"] == ["p"];
    assert map["u" := none]["u" := none + ["p"]] == map["u" := ["p"]];
  }

  /** After a first accepted submission for a problem worth 0, in either variant. */
  lemma FirstVisit(v: Variant)
    ensures Visit(v, [ContestProblem("p", 0)], EmptyTally, Entry("u", "p", Accepted, 5))
      == Tally(["u"], map["u" := 0], map["u" := ["p"]], map["u" := 5])
  {
    FirstEntry(v);
    FirstScore();
  }

  /** The next submission of the same user: as written the entry is reset, corrected nothing changes. */
  lemma SecondVisit()
    ensures var problems := [ContestProblem("p", 0)];
      var t := Tally(["u"], map["u" := 0], map["u" := ["p"]], map["u" := 5]);
      var e := Entry("u", "p", WrongAnswer, 6);
      && Visit(AsWritten, problems, t, e) == Tally(["u"], map["u" := 0], map["u" := []], map["u" := 0])
      && Visit(Corrected, problems, t, e) == t
  {
    var problems := [ContestProblem("p", 0)];
    var t := Tally(["u"], map["u" := 0], map["u" := ["p"]], map["u" := 5]);
    var e := Entry("u", "p", WrongAnswer, 6);
    assert InitEntry(AsWritten, t, "u") == Tally(["u"], map["u" := 0], map["u" := []], map["u" := 0]);
    assert InitEntry(Corrected, t, "u") == t;
  }

  /** Standings of a tally of one user are that user's row. */
  lemma SingleRow(v: Variant, problems: seq<ContestProblem>, subs: seq<Submission>, t: Tally, row: Row)
    requires TallyAll(v, problems, subs) == t
    requires t.users == [row.user] && t.points == map[row.user := row.points]
    requires t.last == map[row.user := row.lastAcceptedAt]
    requires row.user in t.solved && |t.solved[row.user]| == row.solvedCount
    ensures Standings(v, problems, subs) == [row]
  {
    assert RowsOf(t) == [row];
    assert SortBy([row], RowKey) == Insert(row, [], RowKey);
  }

  /** The fold over two submissions is two visits. */
  lemma TallyTwo(v: Variant, problems: seq<ContestProblem>, subs: seq<Submission>)
    requires |subs| == 2
    ensures TallyAll(v, problems, subs) == Visit(v, problems, Visit(v, problems, EmptyTally, subs[0]), subs[1])
  {
    assert subs[..1] == [subs[0]];
    assert [subs[0]][..0] == [];
    assert TallyAll(v, problems, subs[..1]) == Visit(v, problems, EmptyTally, subs[0]);
  }

  /**
   * A user who solved a problem worth 0 points and then submitted again has
   * its entry reset by the handler: the problem no longer counts as solved
   * and the time of the solution is forgotten.
   */
  lemma ZeroPointReset()
    ensures var problems := [ContestProblem("p", 0)];
      var subs := [Entry("u", "p", Accepted, 5), Entry("u", "p", WrongAnswer, 6)];
      && Standings(AsWritten, problems, subs) == [Row("u", 0, 0, 0)]
      && Standings(Corrected, problems, subs) == [Row("u", 0, 1, 5)]
  {
    var problems := [ContestProblem("p", 0)];
    var subs := [Entry("u", "p", Accepted, 5), Entry("u", "p", WrongAnswer, 6)];
    var a1 := Tally(["u"], map["u" := 0], map["u" := ["p"]], map["u" := 5]);
    var a2 := Tally(["u"], map["u" := 0], map["u" := []], map["u" := 0]);
    FirstVisit(AsWritten);
    FirstVisit(Corrected);
    SecondVisit();
    TallyTwo(AsWritten, problems, subs);
    TallyTwo(Corrected, problems, subs);
    SingleRow(AsWritten, problems, subs, a2, Row("u", 0, 0, 0));
    SingleRow(Corrected, problems, subs, a1, Row("u", 0, 1, 5));
  }

  /** A second user's first submission appends a fresh entry to the key order. */
  lemma SecondUserEntry(v: Variant)
    ensures InitEntry(v, Tally(["u"], map["u" := 0], map["u" := []], map["u" := 0]), "w")
      == Tally(["u", "w"], map["u" := 0, "w" := 0], map["u" := [], "w" := []], map["u" := 0, "w" := 0])
  {
    var t := Tally(["u"], map["u" := 0], map["u" := []], map["u" := 0]);
    assert "w" != "u";
    assert Resets(v, t, "w");
    assert ["u"] + ["w"] == ["u", "w"];
  }

  /** The tally after two users' wrong answers: both entered with nothing scored. */
  lemma TiedTally(v: Variant)
    ensures TallyAll(v, [ContestProblem("p", 10)], [Entry("u", "p", WrongAnswer, 5), Entry("w", "p", WrongAnswer, 6)])
      == Tally(["u", "w"], map["u" := 0, "w" := 0], map["u" := [], "w" := []], map["u" := 0, "w" := 0])
  {
    var problems := [ContestProblem("p", 10)];
    var subs := [Entry("u", "p", WrongAnswer, 5), Entry("w", "p", WrongAnswer, 6)];
    var t1 := Tally(["u"], map["u" := 0], map["u" := []], map["u" := 0]);
    FirstEntry(v);
    assert Visit(v, problems, EmptyTally, subs[0]) == t1;
    SecondUserEntry(v);
    TallyTwo(v, problems, subs);
  }

  /**
   * Two users who both scored nothing tie on both keys, and the standings
   * list them in the order they first submitted.
   */
  lemma TiedRowsKeepSubmitOrder(v: Variant)
    ensures var problems := [ContestProblem("p", 10)];
      var subs := [Entry("u", "p", WrongAnswer, 5), Entry("w", "p", WrongAnswer, 6)];
      Standings(v, problems, subs) == [Row("u", 0, 0, 0), Row("w", 0, 0, 0)]
  {
    TiedTally(v);
    TiedRowsOf();
    SortTie(Row("u", 0, 0, 0), Row("w", 0, 0, 0), RowKey);
  }

  /** The rows of that tally, in key order. */
  lemma TiedRowsOf()
    ensures RowsOf(Tally(["u", "w"], map["u" := 0, "w" := 0], map["u" := [], "w" := []], map["u" := 0, "w" := 0]))
      == [Row("u", 0, 0, 0), Row("w", 0, 0, 0)]
  {
    var t2 := Tally(["u", "w"], map["u" := 0, "w" := 0], map["u" := [], "w" := []], map["u" := 0, "w" := 0]);
    assert RowsOf(t2)[0] == Row("u", 0, 0, 0);
    assert RowsOf(t2)[1] == Row("w", 0, 0, 0);
  }
}
