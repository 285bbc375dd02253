/**
 * The submission handlers: the three paginated lists, the single view with
 * its permission check, and the three handlers that change the collections —
 * create (contest window and registration checks, `submissionCount + 1`),
 * edit (`acceptedCount + 1` on a change to accepted) and delete (both
 * counters lowered).
 */
module Submissions {
  import opened Wrappers
  import opened Pagination
  import opened Models
  import opened Seqs

  // ----- the list handlers -----

  /** A query-string field takes part in the filter only when it is present and non-empty (truthy). */
  predicate Applies(q: Option<string>) {
    q.Some? && q.value != ""
  }

  predicate FieldMatches(q: Option<string>, value: string) {
    !Applies(q) || q.value == value
  }

  /** The `filter` object, one optional equality per field. */
  datatype SubmissionFilter = SubmissionFilter(
    user: Option<string>,
    problem: Option<string>,
    status: Option<string>,
    contest: Option<string>,
    language: Option<string>)

  predicate MatchesFilter(s: Submission, f: SubmissionFilter) {
    && FieldMatches(f.user, s.user)
    && FieldMatches(f.problem, s.problem)
    && FieldMatches(f.status, StatusName(s.status))
    && (!Applies(f.contest) || s.contest == Some(f.contest.value))
    && FieldMatches(f.language, LanguageName(s.language))
  }

  /** MongoDB cannot cast a reference field's filter value that is not an ObjectId, and the query throws. */
  predicate FilterCasts(f: SubmissionFilter) {
    && (Applies(f.user) ==> IsObjectIdString(f.user.value))
    && (Applies(f.problem) ==> IsObjectIdString(f.problem.value))
    && (Applies(f.contest) ==> IsObjectIdString(f.contest.value))
  }

  /** The query string of a list request; `page` and `limit` are the results of `parseInt`, None for NaN. */
  datatype ListQuery = ListQuery(page: Option<int>, limit: Option<int>, filter: SubmissionFilter)

  datatype ListResponse =
    | ListForbidden   // 403
    | ListFailed      // 500: the query threw (a cast error or a negative skip)
    | SubmissionPage(count: nat, total: nat, totalPages: int, currentPage: int, data: seq<Submission>)

  /** The submissions list handlers use a default page size of 20. */
  const DefaultLimit := 20

  /** The filter `find(filter)` applies, as a predicate on documents. */
  function Matching(f: SubmissionFilter): Submission -> bool {
    s => MatchesFilter(s, f)
  }

  /** `sub.problem` is truthy after `populate` exactly when the referenced problem still exists. */
  function ProblemExists(problems: set<Id>): Submission -> bool {
    (s: Submission) => s.problem in problems
  }

  /**
   * `r` is the page a list handler answers for the documents `matches`: the
   * `skip`/`limit` window of them (less those whose problem is gone, when
   * `dropMissing`), `count` its length, `total` every match, and the page
   * numbers as requested and as `Math.ceil(total / limit)`.
   */
  predicate IsPageOf(r: ListResponse, matches: seq<Submission>, page: int, limit: int,
                     dropMissing: bool, problems: set<Id>)
    requires limit != 0
  {
    && r.SubmissionPage?
    && Window(matches, page, limit).Some?
    && r.data == (if dropMissing then Filter(Window(matches, page, limit).value, ProblemExists(problems))
                  else Window(matches, page, limit).value)
    && r.count == |r.data|
    && r.total == |matches|
    && r.totalPages == TotalPages(|matches|, limit)
    && r.currentPage == page
  }

  /**
   * The shared part of the list handlers: `find(filter).skip(skip).limit(limit)`
   * over `all` (the collection in the order of the requested sort key), then,
   * when `dropMissing`, the documents whose `problem` no longer populates are
   * dropped from the page; `total` is `countDocuments(filter)`.
   */
  function Page(all: seq<Submission>, page: int, limit: int, f: SubmissionFilter,
                dropMissing: bool, problems: set<Id>): (r: ListResponse)
    requires limit != 0
    ensures r.ListForbidden? == false
    ensures r.ListFailed? <==> !FilterCasts(f) || (page - 1) * limit < 0
    ensures r.SubmissionPage? ==> IsPageOf(r, Filter(all, Matching(f)), page, limit, dropMissing, problems)
    ensures r.SubmissionPage? ==>
      && r.count <= Abs(limit)
      && (forall j :: 0 <= j < |r.data| ==> MatchesFilter(r.data[j], f))
      && (dropMissing ==> forall j :: 0 <= j < |r.data| ==> r.data[j].problem in problems)
  {
    var matches := Filter(all, Matching(f));
    if !FilterCasts(f) then ListFailed
    else match Window(matches, page, limit)
      case None => ListFailed
      case Some(w) =>
        assert forall k :: 0 <= k < |w| ==> MatchesFilter(w[k], f);
        var data := if dropMissing then Filter(w, ProblemExists(problems)) else w;
        KeepsMatch(w, data, f);
        SubmissionPage(|data|, Count(all, Matching(f)), TotalPages(|matches|, limit), page, data)
  }

  /** Documents taken from a page that matches the filter match it too. */
  lemma KeepsMatch(w: seq<Submission>, data: seq<Submission>, f: SubmissionFilter)
    requires forall k :: 0 <= k < |w| ==> MatchesFilter(w[k], f)
    requires forall j :: 0 <= j < |data| ==> data[j] in w
    ensures forall j :: 0 <= j < |data| ==> MatchesFilter(data[j], f)
  {
    forall j | 0 <= j < |data| ensures MatchesFilter(data[j], f) {
      var k :| 0 <= k < |w| && w[k] == data[j];
    }
  }

  /**
   * `getAllSubmissions`: admins only; every filter field is taken from the
   * query, and the page drops submissions whose problem no longer exists
   * (`problems` is the set of existing problem ids), so `count` can be
   * smaller than the page while `total` still counts them.
   */
  function ListAll(all: seq<Submission>, q: ListQuery, viewer: Viewer, problems: set<Id>): (r: ListResponse)
    ensures r.ListForbidden? <==> viewer.role != "admin"
    ensures r.ListFailed? <==>
      (viewer.role == "admin" && (!FilterCasts(q.filter) || (QueryInt(q.page, 1) - 1) * QueryInt(q.limit, DefaultLimit) < 0))
    ensures r.SubmissionPage? ==>
      IsPageOf(r, Filter(all, Matching(q.filter)), QueryInt(q.page, 1), QueryInt(q.limit, DefaultLimit), true, problems)
    ensures r.SubmissionPage? ==>
      forall j :: 0 <= j < |r.data| ==> r.data[j].problem in problems && MatchesFilter(r.data[j], q.filter)
  {
    if viewer.role != "admin" then ListForbidden
    else Page(all, QueryInt(q.page, 1), QueryInt(q.limit, DefaultLimit), q.filter, true, problems)
  }

  /** `getUserSubmissions`: the requester's own submissions; a `user` in the query is ignored. */
  function ListOwn(all: seq<Submission>, q: ListQuery, viewer: Viewer, problems: set<Id>): (r: ListResponse)
    requires IsObjectIdString(viewer.id)
    ensures !r.ListForbidden?
    ensures r.ListFailed? <==>
      || !FilterCasts(q.filter.(user := Some(viewer.id)))
      || (QueryInt(q.page, 1) - 1) * QueryInt(q.limit, DefaultLimit) < 0
    ensures r.SubmissionPage? ==>
      IsPageOf(r, Filter(all, Matching(q.filter.(user := Some(viewer.id)))),
               QueryInt(q.page, 1), QueryInt(q.limit, DefaultLimit), false, problems)
    ensures r.SubmissionPage? ==> forall j :: 0 <= j < |r.data| ==> r.data[j].user == viewer.id
  {
    var f := q.filter.(user := Some(viewer.id));
    Page(all, QueryInt(q.page, 1), QueryInt(q.limit, DefaultLimit), f, false, problems)
  }

  /** Listing the submissions of `userId` is allowed to that user and to admins. */
  predicate MayListFor(viewer: Viewer, userId: Id) {
    viewer.id == userId || viewer.role == "admin"
  }

  /** The filter of `getAllUserSubmissions`: the user, and the query's `problem` and `status`. */
  function UserFilter(userId: Id, q: SubmissionFilter): SubmissionFilter {
    SubmissionFilter(Some(userId), q.problem, q.status, None, None)
  }

  /**
   * `getAllUserSubmissions`: only the `problem` and `status` filters of the
   * query apply; `contest` and `language` are ignored.
   */
  function ListForUser(all: seq<Submission>, userId: Id, q: ListQuery, viewer: Viewer, problems: set<Id>): (r: ListResponse)
    ensures r.ListForbidden? <==> !MayListFor(viewer, userId)
    ensures r.ListFailed? <==>
      (MayListFor(viewer, userId) &&
       (|| userId == ""
        || !FilterCasts(UserFilter(userId, q.filter))
        || (QueryInt(q.page, 1) - 1) * QueryInt(q.limit, DefaultLimit) < 0))
    ensures r.SubmissionPage? ==>
      IsPageOf(r, Filter(all, Matching(UserFilter(userId, q.filter))),
               QueryInt(q.page, 1), QueryInt(q.limit, DefaultLimit), false, problems)
    ensures r.SubmissionPage? ==> forall j :: 0 <= j < |r.data| ==>
      && r.data[j].user == userId
      && FieldMatches(q.filter.problem, r.data[j].problem)
      && FieldMatches(q.filter.status, StatusName(r.data[j].status))
  {
    var f := UserFilter(userId, q.filter);
    if !MayListFor(viewer, userId) then ListForbidden
    else if userId == "" then ListFailed
    else Page(all, QueryInt(q.page, 1), QueryInt(q.limit, DefaultLimit), f, false, problems)
  }

  // ----- getSingleSubmission -----

  /** Everyone may see a public submission; a private one only its owner and admins. */
  predicate MayViewSubmission(s: Submission, viewer: Viewer) {
    s.isPublic || viewer.id == s.user || viewer.role == "admin"
  }

  datatype ViewResponse =
    | ViewNotFound             // 404
    | ViewForbidden            // 403
    | ViewFailed               // 500
    | Shown(submission: Submission)

  /**
   * `getSingleSubmission`. `found` is the outcome of `findById`;
   * `ownerExists` says whether the submission's `user` still populates: the
   * permission check reads `submission.user._id`, which throws for a deleted
   * owner once the submission is not public.
   */
  function ViewSubmission(found: Lookup<Submission>, ownerExists: bool, viewer: Viewer): (r: ViewResponse)
    ensures r == ViewNotFound <==> found.Missing?
    ensures r == ViewForbidden <==> found.Found? && ownerExists && !MayViewSubmission(found.doc, viewer)
    ensures r == ViewFailed <==> found.LookupFailed? || (found.Found? && !found.doc.isPublic && !ownerExists)
    ensures r.Shown? ==> found.Found? && r.submission == found.doc && MayViewSubmission(found.doc, viewer)
  {
    match found
    case Missing => ViewNotFound
    case LookupFailed => ViewFailed
    case Found(s) =>
      if s.isPublic then Shown(s)
      else if !ownerExists then ViewFailed
      else if viewer.id != s.user && viewer.role != "admin" then ViewForbidden
      else Shown(s)
  }

  // ----- the counters -----

  /** `Problem.findByIdAndUpdate(pid, { $inc: … })`: a missing problem is a no-op. */
  function Bump(problems: map<Id, Problem>, pid: Id, dSubmissions: int, dAccepted: int): (r: map<Id, Problem>)
    ensures r.Keys == problems.Keys
    ensures forall q :: q in problems && q != pid ==> r[q] == problems[q]
    ensures pid in problems ==>
      && r[pid].submissionCount == problems[pid].submissionCount + dSubmissions
      && r[pid].acceptedCount == problems[pid].acceptedCount + dAccepted
      && r[pid] == problems[pid].(submissionCount := r[pid].submissionCount, acceptedCount := r[pid].acceptedCount)
  {
    if pid in problems then
      var p := problems[pid];
      problems[pid := p.(submissionCount := p.submissionCount + dSubmissions, acceptedCount := p.acceptedCount + dAccepted)]
    else problems
  }

  ghost function SubmissionsFor(subs: map<Id, Submission>, pid: Id): set<Id> {
    set id | id in subs && subs[id].problem == pid
  }

  ghost function AcceptedFor(subs: map<Id, Submission>, pid: Id): set<Id> {
    set id | id in subs && subs[id].problem == pid && subs[id].status == Accepted
  }

  /** Each problem's counters equal the number of its submissions and of its accepted submissions. */
  ghost predicate CountersAgree(problems: map<Id, Problem>, subs: map<Id, Submission>) {
    forall pid :: pid in problems ==>
      && problems[pid].submissionCount == |SubmissionsFor(subs, pid)|
      && problems[pid].acceptedCount == |AcceptedFor(subs, pid)|
  }

  /** Taking `x` out of a set and possibly putting it back changes its size by at most one each way. */
  lemma CardSwap<T>(a: set<T>, x: T, add: bool)
    ensures |a - {x} + (if add then {x} else {})| == |a| - (if x in a then 1 else 0) + (if add then 1 else 0)
  {
    var b := a - {x};
    if x in a {
      assert a == b + {x};
    } else {
      assert b == a;
    }
    if add {
      assert x !in b;
      assert |b + {x}| == |b| + 1;
    } else {
      assert b + {} == b;
    }
  }

  /** Storing `s` under `id` changes the submissions counted for `pid` by that id only. */
  lemma StoredSubmissions(subs: map<Id, Submission>, id: Id, s: Submission, pid: Id)
    ensures SubmissionsFor(subs[id := s], pid) == SubmissionsFor(subs, pid) - {id} + (if s.problem == pid then {id} else {})
  {
    var subs' := subs[id := s];
    var after := SubmissionsFor(subs', pid);
    var expected := SubmissionsFor(subs, pid) - {id} + (if s.problem == pid then {id} else {});
    forall x | x in after ensures x in expected {
      if x != id { assert x in subs && subs[x] == subs'[x]; }
    }
    forall x | x in expected ensures x in after {
      if x != id { assert subs[x] == subs'[x]; }
    }
  }

  /** Storing `s` under `id` changes the accepted submissions counted for `pid` by that id only. */
  lemma StoredAccepted(subs: map<Id, Submission>, id: Id, s: Submission, pid: Id)
    ensures AcceptedFor(subs[id := s], pid)
      == AcceptedFor(subs, pid) - {id} + (if s.problem == pid && s.status == Accepted then {id} else {})
  {
    var subs' := subs[id := s];
    var after := AcceptedFor(subs', pid);
    var expected := AcceptedFor(subs, pid) - {id} + (if s.problem == pid && s.status == Accepted then {id} else {});
    forall x | x in after ensures x in expected {
      if x != id { assert x in subs && subs[x] == subs'[x]; }
    }
    forall x | x in expected ensures x in after {
      if x != id { assert subs[x] == subs'[x]; }
    }
  }

  /** Storing document `s` under `id` changes the sizes of the two counted sets of a problem by that id only. */
  lemma StoreEffect(subs: map<Id, Submission>, id: Id, s: Submission, pid: Id)
    ensures var subs' := subs[id := s];
      && |SubmissionsFor(subs', pid)| == |SubmissionsFor(subs, pid)|
           - (if id in subs && subs[id].problem == pid then 1 else 0) + (if s.problem == pid then 1 else 0)
      && |AcceptedFor(subs', pid)| == |AcceptedFor(subs, pid)|
           - (if id in subs && subs[id].problem == pid && subs[id].status == Accepted then 1 else 0)
           + (if s.problem == pid && s.status == Accepted then 1 else 0)
  {
    StoredSubmissions(subs, id, s, pid);
    CardSwap(SubmissionsFor(subs, pid), id, s.problem == pid);
    StoredAccepted(subs, id, s, pid);
    CardSwap(AcceptedFor(subs, pid), id, s.problem == pid && s.status == Accepted);
  }

  /** Deleting `id` takes it out of the two counted sets of its problem and changes nothing else. */
  lemma RemoveEffect(subs: map<Id, Submission>, id: Id, pid: Id)
    requires id in subs
    ensures |SubmissionsFor(subs - {id}, pid)| == |SubmissionsFor(subs, pid)| - (if subs[id].problem == pid then 1 else 0)
    ensures |AcceptedFor(subs - {id}, pid)| == |AcceptedFor(subs, pid)|
      - (if subs[id].problem == pid && subs[id].status == Accepted then 1 else 0)
  {
    var rest := subs - {id};
    forall x | x in rest ensures rest[x] == subs[x] { }
    assert SubmissionsFor(rest, pid) == SubmissionsFor(subs, pid) - {id} + {};
    CardSwap(SubmissionsFor(subs, pid), id, false);
    assert AcceptedFor(rest, pid) == AcceptedFor(subs, pid) - {id} + {};
    CardSwap(AcceptedFor(subs, pid), id, false);
  }

  /** The accepted-count change an edit applies; as written it never lowers the count. */
  function AcceptedDelta(v: Variant, before: Status, after: Status): (d: int)
    ensures v == Corrected ==> d == (if after == Accepted then 1 else 0) - (if before == Accepted then 1 else 0)
    ensures v == AsWritten ==> (d == 1 <==> after == Accepted && before != Accepted) && (d != 1 ==> d == 0)
  {
    if after == Accepted && before != Accepted then 1
    else if v == Corrected && before == Accepted && after != Accepted then -1
    else 0
  }

  // ----- createSubmission -----

  /**
   * The request body: `problem` is None when absent or null, `contest` None
   * when falsy; `language` and `code` are the empty string when absent.
   */
  datatype SubmissionBody = SubmissionBody(problem: Option<string>, contest: Option<string>, language: string, code: string)

  datatype CreateResponse =
    | CreateProblemMissing   // 404 Problem not found
    | CreateContestMissing   // 404 Contest not found
    | ContestInactive        // 400 Contest is not active
    | NotRegistered          // 403 You are not registered for this contest
    | CreateFailed           // 500: a cast error or a schema validation error
    | Created(submission: Submission)

  /** The body names, by a well-formed id, a problem that exists. */
  predicate ProblemAdmits(problems: map<Id, Problem>, problem: Option<string>) {
    problem.Some? && IsObjectIdString(problem.value) && problem.value in problems
  }

  /** The contest of the body, when there is one, is running at `now` and the user is registered for it. */
  predicate ContestAdmits(contests: map<Id, Contest>, userId: Id, contest: Option<string>, now: int) {
    !Applies(contest) ||
      var cid := contest.value;
      && IsObjectIdString(cid) && cid in contests
      && contests[cid].startTime <= now <= contests[cid].endTime
      && userId in contests[cid].registeredUsers
  }

  /**
   * What `createSubmission` answers, in the order of its checks: the problem
   * lookup, the contest lookup, the contest window, the registration, then
   * schema validation on `Submission.create` (`language` in the enum, a
   * non-empty `code`). The new document is public and pending.
   */
  function CreateDecision(problems: map<Id, Problem>, contests: map<Id, Contest>, userId: Id,
                          body: SubmissionBody, newId: Id, now: int): (r: CreateResponse)
    ensures body.problem.Some? && !IsObjectIdString(body.problem.value) ==> r == CreateFailed
    ensures r == CreateProblemMissing <==>
      body.problem.None? || (IsObjectIdString(body.problem.value) && body.problem.value !in problems)
    ensures ProblemAdmits(problems, body.problem) && Applies(body.contest) && !IsObjectIdString(body.contest.value) ==>
      r == CreateFailed
    ensures r == CreateContestMissing <==>
      && ProblemAdmits(problems, body.problem) && Applies(body.contest)
      && IsObjectIdString(body.contest.value) && body.contest.value !in contests
    ensures r == ContestInactive <==>
      && ProblemAdmits(problems, body.problem) && Applies(body.contest)
      && IsObjectIdString(body.contest.value) && body.contest.value in contests
      && (now < contests[body.contest.value].startTime || contests[body.contest.value].endTime < now)
    ensures r == NotRegistered <==>
      && ProblemAdmits(problems, body.problem) && Applies(body.contest)
      && IsObjectIdString(body.contest.value) && body.contest.value in contests
      && contests[body.contest.value].startTime <= now <= contests[body.contest.value].endTime
      && userId !in contests[body.contest.value].registeredUsers
    ensures r.Created? <==>
      && ProblemAdmits(problems, body.problem)
      && ContestAdmits(contests, userId, body.contest, now)
      && ParseLanguage(body.language).Some? && body.code != ""
    ensures r.Created? ==>
      && r.submission.id == newId && r.submission.user == userId && Some(r.submission.problem) == body.problem
      && r.submission.status == Pending && r.submission.isPublic
      && r.submission.contest == (if Applies(body.contest) then body.contest else None)
      && LanguageName(r.submission.language) == body.language && r.submission.code == body.code
      && r.submission.submittedAt == now
  {
    if body.problem.None? then CreateProblemMissing
    else if !IsObjectIdString(body.problem.value) then CreateFailed
    else if body.problem.value !in problems then CreateProblemMissing
    else if Applies(body.contest) && !IsObjectIdString(body.contest.value) then CreateFailed
    else if Applies(body.contest) && body.contest.value !in contests then CreateContestMissing
    else if Applies(body.contest) && var c := contests[body.contest.value]; now < c.startTime || now > c.endTime then ContestInactive
    else if Applies(body.contest) && userId !in contests[body.contest.value].registeredUsers then NotRegistered
    else match ParseLanguage(body.language)
      case None => CreateFailed
      case Some(language) =>
        if body.code == "" then CreateFailed
        else Created(NewSubmission(newId, userId, body.problem.value, if Applies(body.contest) then body.contest else None,
                                   language, body.code, Some(true), now))
  }

  /** A submission to a contest is only ever stored by a registered user while the contest runs. */
  lemma ContestSubmissionInWindow(problems: map<Id, Problem>, contests: map<Id, Contest>, userId: Id,
                                  body: SubmissionBody, newId: Id, now: int)
    ensures var r := CreateDecision(problems, contests, userId, body, newId, now);
      r.Created? && r.submission.contest.Some? ==>
        var c := contests[r.submission.contest.value];
        && c.startTime <= now <= c.endTime
        && userId in c.registeredUsers
  {
  }

  /** Creating a pending submission under a fresh id and raising its problem's `submissionCount` keeps the counters exact. */
  lemma CreateKeepsCounters(problems: map<Id, Problem>, subs: map<Id, Submission>, s: Submission)
    requires CountersAgree(problems, subs)
    requires s.id !in subs && s.status == Pending
    ensures CountersAgree(Bump(problems, s.problem, 1, 0), subs[s.id := s])
  {
    var problems' := Bump(problems, s.problem, 1, 0);
    var subs' := subs[s.id := s];
    forall pid | pid in problems'
      ensures problems'[pid].submissionCount == |SubmissionsFor(subs', pid)|
      ensures problems'[pid].acceptedCount == |AcceptedFor(subs', pid)|
    {
      StoreEffect(subs, s.id, s, pid);
    }
  }

  // ----- deleteSubmission -----

  /** Deleting a submission and lowering its problem's counters as the handler does keeps the counters exact. */
  lemma DeleteKeepsCounters(problems: map<Id, Problem>, subs: map<Id, Submission>, id: Id)
    requires CountersAgree(problems, subs)
    requires id in subs
    ensures var s := subs[id];
      CountersAgree(Bump(problems, s.problem, -1, if s.status == Accepted then -1 else 0), subs - {id})
  {
    var s := subs[id];
    var problems' := Bump(problems, s.problem, -1, if s.status == Accepted then -1 else 0);
    var subs' := subs - {id};
    forall pid | pid in problems'
      ensures problems'[pid].submissionCount == |SubmissionsFor(subs', pid)|
      ensures problems'[pid].acceptedCount == |AcceptedFor(subs', pid)|
    {
      RemoveEffect(subs, id, pid);
    }
  }

  // ----- editSubmission -----

  /** Setting the status of `id` and adjusting `acceptedCount` by the corrected delta keeps the counters exact. */
  lemma EditKeepsCounters(problems: map<Id, Problem>, subs: map<Id, Submission>, id: Id, status: Status)
    requires CountersAgree(problems, subs)
    requires id in subs
    ensures var s := subs[id];
      CountersAgree(Bump(problems, s.problem, 0, AcceptedDelta(Corrected, s.status, status)), subs[id := s.(status := status)])
  {
    var s := subs[id];
    var s' := s.(status := status);
    var problems' := Bump(problems, s.problem, 0, AcceptedDelta(Corrected, s.status, status));
    var subs' := subs[id := s'];
    forall pid | pid in problems'
      ensures problems'[pid].submissionCount == |SubmissionsFor(subs', pid)|
      ensures problems'[pid].acceptedCount == |AcceptedFor(subs', pid)|
    {
      StoreEffect(subs, id, s', pid);
    }
  }

  /**
   * As written, an admin who changes an accepted submission to another
   * status leaves `acceptedCount` one too high: the counters agreed before
   * and do not after.
   */
  lemma EditLeavesStaleCount()
    ensures var s := NewSubmission("s", "u", "p", None, CppLang, "x", None, 0).(status := Accepted);
      var p := NewProblem("p", "t", "t", Easy, [], [], None, None, [], "u", None).(submissionCount := 1, acceptedCount := 1);
      var problems := map["p" := p];
      var subs := map["s" := s];
      && CountersAgree(problems, subs)
      && !CountersAgree(Bump(problems, "p", 0, AcceptedDelta(AsWritten, Accepted, WrongAnswer)), subs["s" := s.(status := WrongAnswer)])
  {
    var s := NewSubmission("s", "u", "p", None, CppLang, "x", None, 0).(status := Accepted);
    var p := NewProblem("p", "t", "t", Easy, [], [], None, None, [], "u", None).(submissionCount := 1, acceptedCount := 1);
    var problems := map["p" := p];
    var subs := map["s" := s];
    assert SubmissionsFor(subs, "p") == {"s"};
    assert AcceptedFor(subs, "p") == {"s"};
    var subs' := subs["s" := s.(status := WrongAnswer)];
    assert AcceptedFor(subs', "p") == {};
    assert Bump(problems, "p", 0, 0) == problems;
  }

  datatype EditResponse =
    | EditForbidden   // 403
    | EditNotFound    // 404
    | EditFailed      // 500: a cast error, or a status outside the enum
    | Edited(submission: Submission)

  datatype DeleteResponse =
    | DeleteForbidden // 403
    | DeleteNotFound  // 404
    | DeleteFailed    // 500: a cast error
    | Deleted

  /** The `problems` and `submissions` collections, which the three writing handlers change. */
  class SubmissionStore {
    var problems: map<Id, Problem>
    var submissions: map<Id, Submission>

    constructor (problems0: map<Id, Problem>, submissions0: map<Id, Submission>)
      ensures problems == problems0 && submissions == submissions0
    {
      problems := problems0;
      submissions := submissions0;
    }

    ghost predicate Valid()
      reads this
    {
      CountersAgree(problems, submissions)
    }

    /**
     * `createSubmission`. `newId` is the id MongoDB assigns, `now` the clock;
     * judging, which the handler starts without waiting, is not part of it.
     */
    method Create(contests: map<Id, Contest>, viewer: Viewer, body: SubmissionBody, newId: Id, now: int)
      returns (r: CreateResponse)
      requires newId !in submissions
      modifies this
      ensures r == CreateDecision(old(problems), contests, viewer.id, body, newId, now)
      ensures r.Created? ==>
        && submissions == old(submissions)[newId := r.submission]
        && problems == Bump(old(problems), r.submission.problem, 1, 0)
      ensures !r.Created? ==> submissions == old(submissions) && problems == old(problems)
      ensures old(Valid()) ==> Valid()
    {
      r := Admit(contests, viewer, body, newId, now);
      if r.Created? {
        Store(r.submission);
      }
    }

    /** The checks of `createSubmission`, before anything is written. */
    method Admit(contests: map<Id, Contest>, viewer: Viewer, body: SubmissionBody, newId: Id, now: int)
      returns (r: CreateResponse)
      ensures r == CreateDecision(problems, contests, viewer.id, body, newId, now)
    {
      if body.problem.None? {
        return CreateProblemMissing;
      }
      var pid := body.problem.value;
      if !IsObjectIdString(pid) {
        return CreateFailed;
      }
      if pid !in problems {
        return CreateProblemMissing;
      }
      var contest: Option<Id> := None;
      if Applies(body.contest) {
        var cid := body.contest.value;
        if !IsObjectIdString(cid) {
          return CreateFailed;
        }
        if cid !in contests {
          return CreateContestMissing;
        }
        var c := contests[cid];
        if now < c.startTime || now > c.endTime {
          return ContestInactive;
        }
        if viewer.id !in c.registeredUsers {
          return NotRegistered;
        }
        contest := Some(cid);
      }
      var language := ParseLanguage(body.language);
      if language.None? || body.code == "" {
        return CreateFailed;
      }
      var submission := NewSubmission(newId, viewer.id, pid, contest, language.value, body.code, Some(true), now);
      r := Created(submission);
    }

    /** `Submission.create` followed by the `submissionCount` increment of its problem. */
    method Store(submission: Submission)
      requires submission.id !in submissions && submission.problem in problems && submission.status == Pending
      modifies this
      ensures submissions == old(submissions)[submission.id := submission]
      ensures problems == Bump(old(problems), submission.problem, 1, 0)
      ensures old(Valid()) ==> Valid()
    {
      submissions := submissions[submission.id := submission];
      var p := problems[submission.problem];
      problems := problems[submission.problem := p.(submissionCount := p.submissionCount + 1)];
      assert problems == Bump(old(problems), submission.problem, 1, 0);
      if old(Valid()) {
        CreateKeepsCounters(old(problems), old(submissions), submission);
      }
    }

    /**
     * `editSubmission` for a body that sets `status` (None: a body without
     * one). The count is raised from the stored document's old status; the
     * corrected variant also lowers it when an accepted submission stops
     * being accepted.
     */
    method Edit(v: Variant, viewer: Viewer, id: Id, status: Option<string>) returns (r: EditResponse)
      modifies this
      ensures viewer.role != "admin" ==> r == EditForbidden
      ensures viewer.role == "admin" && !IsObjectIdString(id) ==> r == EditFailed
      ensures viewer.role == "admin" && IsObjectIdString(id) && id !in old(submissions) ==> r == EditNotFound
      ensures viewer.role == "admin" && IsObjectIdString(id) && id in old(submissions) && status.Some? && ParseStatus(status.value).None? ==>
        r == EditFailed
      ensures (viewer.role == "admin" && IsObjectIdString(id) && id in old(submissions)
               && (status.None? || ParseStatus(status.value).Some?)) ==> r.Edited?
      ensures !r.Edited? ==> submissions == old(submissions) && problems == old(problems)
      ensures r.Edited? ==>
        var s := old(submissions)[id];
        var after := if status.Some? then ParseStatus(status.value).value else s.status;
        && viewer.role == "admin" && id in old(submissions)
        && r.submission == s.(status := after)
        && submissions == old(submissions)[id := r.submission]
        && problems == Bump(old(problems), s.problem, 0, AcceptedDelta(v, s.status, after))
      ensures v == Corrected && old(Valid()) ==> Valid()
    {
      if viewer.role != "admin" {
        return EditForbidden;
      }
      if !IsObjectIdString(id) {
        return EditFailed;
      }
      if id !in submissions {
        return EditNotFound;
      }
      var submission := submissions[id];
      var after := submission.status;
      if status.Some? {
        var parsed := ParseStatus(status.value);
        if parsed.None? {
          return EditFailed;
        }
        after := parsed.value;
      }
      var updated := submission.(status := after);
      submissions := submissions[id := updated];
      var delta := AcceptedDelta(v, submission.status, after);
      if delta != 0 && submission.problem in problems {
        var p := problems[submission.problem];
        problems := problems[submission.problem := p.(acceptedCount := p.acceptedCount + delta)];
      }
      r := Edited(updated);
      assert problems == Bump(old(problems), submission.problem, 0, delta);
      if v == Corrected && old(Valid()) {
        EditKeepsCounters(old(problems), old(submissions), id, after);
      }
    }

    /** `deleteSubmission`. */
    method Delete(viewer: Viewer, id: Id) returns (r: DeleteResponse)
      modifies this
      ensures viewer.role != "admin" ==> r == DeleteForbidden
      ensures viewer.role == "admin" && !IsObjectIdString(id) ==> r == DeleteFailed
      ensures viewer.role == "admin" && IsObjectIdString(id) && id !in old(submissions) ==> r == DeleteNotFound
      ensures viewer.role == "admin" && IsObjectIdString(id) && id in old(submissions) ==> r == Deleted
      ensures r == Deleted ==>
        var s := old(submissions)[id];
        && submissions == old(submissions) - {id}
        && problems == Bump(old(problems), s.problem, -1, if s.status == Accepted then -1 else 0)
      ensures r != Deleted ==> submissions == old(submissions) && problems == old(problems)
      ensures old(Valid()) ==> Valid()
    {
      if viewer.role != "admin" {
        return DeleteForbidden;
      }
      if !IsObjectIdString(id) {
        return DeleteFailed;
      }
      if id !in submissions {
        return DeleteNotFound;
      }
      var submission := submissions[id];
      submissions := submissions - {id};
      var accepted := if submission.status == Accepted then -1 else 0;
      problems := Bump(problems, submission.problem, -1, accepted);
      r := Deleted;
      if old(Valid()) {
        DeleteKeepsCounters(old(problems), old(submissions), id);
      }
    }
  }
}
