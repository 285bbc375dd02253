/**
 * The contest handlers: `getAllContests` (status filter, visibility and the
 * page window), `getSingleContest` (lookup by id or slug, the visibility gate
 * and the hidden problem list), and `registerContest`. The leaderboard is in
 * module ContestLeaderboard.
 *
 * Every handler receives the contests collection as a sequence; `now` is the
 * `new Date()` of the request.
 */
module Contests {
  import opened Wrappers
  import opened Pagination
  import opened Models
  import opened Seqs

  // ----- getAllContests -----

  /**
   * The `status` query filter: `upcoming` keeps `startTime > now`, `ongoing`
   * keeps `startTime <= now <= endTime`, `completed` keeps `endTime < now`;
   * an absent or empty parameter, or any other value, keeps everything.
   */
  predicate MatchesStatus(c: Contest, status: Option<string>, now: int) {
    if status.None? then true
    else if status.value == "upcoming" then c.startTime > now
    else if status.value == "ongoing" then c.startTime <= now <= c.endTime
    else if status.value == "completed" then c.endTime < now
    else true
  }

  function ContestStatusName(s: ContestStatus): string {
    match s
    case Upcoming => "upcoming"
    case Ongoing => "ongoing"
    case Completed => "completed"
  }

  /**
   * Filtering by a status name keeps exactly the contests whose `status`
   * virtual has that value, for every contest that does not end before it
   * starts.
   */
  lemma StatusFilterAgrees(c: Contest, s: ContestStatus, now: int)
    requires c.startTime <= c.endTime
    ensures MatchesStatus(c, Some(ContestStatusName(s)), now) <==> StatusAt(c, now) == s
  {
  }

  /**
   * A contest that ends before it starts (nothing in the schema forbids it)
   * is listed under both `upcoming` and `completed` between its two times.
   */
  lemma InvertedContestListedTwice(c: Contest, now: int)
    requires c.endTime < now < c.startTime
    ensures MatchesStatus(c, Some("upcoming"), now) && MatchesStatus(c, Some("completed"), now)
    ensures StatusAt(c, now) == Upcoming
  {
  }

  /** The whole `filter` object: the status filter, and `visibility: 'public'` unless the requester is an admin. */
  predicate Listed(c: Contest, status: Option<string>, viewer: Option<Viewer>, now: int) {
    MatchesStatus(c, status, now) && (IsAdmin(viewer) || c.visibility == Public)
  }

  /** The query string of the list request; `page` and `limit` are the results of `parseInt`, None for NaN. */
  datatype ListQuery = ListQuery(page: Option<int>, limit: Option<int>, status: Option<string>)

  datatype ListResponse =
    | ListFailed    // 500: the query threw (a negative skip)
    | ContestPage(count: nat, total: nat, totalPages: int, currentPage: int, data: seq<Contest>)

  /**
   * `getAllContests`. `all` is the collection in the order of the requested
   * sort key; the documents come back without their password.
   */
  function ListContests(all: seq<Contest>, q: ListQuery, viewer: Option<Viewer>, now: int): (r: ListResponse)
    ensures var page := QueryInt(q.page, 1);
      var limit := QueryInt(q.limit, 10);
      var matches := Filter(all, c => Listed(c, q.status, viewer, now));
      && (r.ListFailed? <==> (page - 1) * limit < 0)
      && (r.ContestPage? ==>
            && r.total == |matches|
            && r.totalPages == TotalPages(|matches|, limit)
            && r.currentPage == page
            && r.count == |r.data| == PageLength(|matches|, page, limit)
            && forall j :: 0 <= j < |r.data| ==>
                 (page - 1) * limit + j < |matches| && r.data[j] == Loaded(matches[(page - 1) * limit + j]))
  {
    var page := QueryInt(q.page, 1);
    var limit := QueryInt(q.limit, 10);
    var matches := Filter(all, c => Listed(c, q.status, viewer, now));
    match Window(matches, page, limit)
    case None => ListFailed
    case Some(w) =>
      var data := seq(|w|, j requires 0 <= j < |w| => Loaded(w[j]));
      ContestPage(|data|, Count(all, c => Listed(c, q.status, viewer, now)), TotalPages(|matches|, limit), page, data)
  }

  /** A requester who is not an admin is only ever shown public contests, and never a password. */
  lemma NonAdminListsPublicOnly(all: seq<Contest>, q: ListQuery, viewer: Option<Viewer>, now: int)
    requires !IsAdmin(viewer)
    ensures var r := ListContests(all, q, viewer, now);
      r.ContestPage? ==> forall j :: 0 <= j < |r.data| ==> r.data[j].visibility == Public && r.data[j].password == None
  {
    var r := ListContests(all, q, viewer, now);
    var matches := Filter(all, c => Listed(c, q.status, viewer, now));
    if r.ContestPage? {
      forall j | 0 <= j < |r.data|
        ensures r.data[j].visibility == Public && r.data[j].password == None
      {
        var k := (QueryInt(q.page, 1) - 1) * QueryInt(q.limit, 10) + j;
        assert Listed(matches[k], q.status, viewer, now);
      }
    }
  }

  // ----- getSingleContest -----

  /** `findOne` by `_id` when the parameter casts to an ObjectId, otherwise by `slug`. */
  function FindContest(all: seq<Contest>, param: string): (r: Option<Contest>)
    ensures r.Some? ==> r.value in all
    ensures r.Some? && IsObjectIdString(param) ==> r.value.id == param
    ensures r.Some? && !IsObjectIdString(param) ==> r.value.slug == param
    ensures r.None? ==> forall i :: 0 <= i < |all| ==>
      (if IsObjectIdString(param) then all[i].id != param else all[i].slug != param)
    decreases |all|
  {
    if all == [] then None
    else if (if IsObjectIdString(param) then all[0].id == param else all[0].slug == param) then Some(all[0])
    else FindContest(all[1..], param)
  }

  /** A contest whose slug has the shape of an ObjectId cannot be reached by its slug unless that is also its id. */
  lemma ObjectIdShapedSlugUnreachable(all: seq<Contest>, c: Contest)
    requires IsObjectIdString(c.slug) && c.slug != c.id
    requires forall i :: 0 <= i < |all| ==> all[i].id != c.slug
    ensures FindContest(all, c.slug) == None
  {
  }

  datatype ViewResponse =
    | ContestNotFound                 // 404
    | ViewForbidden                   // 403
    | ViewFailed                      // 500
    | Shown(contest: Contest)         // 200

  /** The visibility gate: a non-public contest is shown only to its creator or an admin. */
  predicate MayView(c: Contest, viewer: Option<Viewer>)
    ensures c.visibility == Public || IsAdmin(viewer) ==> MayView(c, viewer)
    ensures viewer.None? ==> (MayView(c, viewer) <==> c.visibility == Public)
    ensures viewer.Some? && !IsAdmin(viewer) && viewer.value.id != c.createdBy ==> (MayView(c, viewer) <==> c.visibility == Public)
  {
    c.visibility == Public || (viewer.Some? && (viewer.value.id == c.createdBy || viewer.value.role == "admin"))
  }

  /**
   * `getSingleContest`. `creatorExists` says whether the populated
   * `createdBy` is a document: the gate dereferences it, and a deleted
   * creator makes that throw.
   */
  function ViewContest(all: seq<Contest>, param: string, viewer: Option<Viewer>, creatorExists: bool, now: int): (r: ViewResponse)
    ensures FindContest(all, param).None? <==> r == ContestNotFound
    ensures r.ViewForbidden? <==>
      && FindContest(all, param).Some?
      && !MayView(FindContest(all, param).value, viewer)
      && (viewer.None? || creatorExists)
    ensures r == ViewFailed <==>
      && FindContest(all, param).Some?
      && FindContest(all, param).value.visibility != Public
      && viewer.Some? && !creatorExists
    ensures r.Shown? ==> var c := FindContest(all, param).value;
      && MayView(c, viewer)
      && r.contest == Loaded(c).(problems := if now < c.startTime then [] else c.problems)
  {
    match FindContest(all, param)
    case None => ContestNotFound
    case Some(c) =>
      if c.visibility != Public && viewer.Some? && !creatorExists then ViewFailed
      else if !MayView(c, viewer) then ViewForbidden
      else Shown(Loaded(c).(problems := if now < c.startTime then [] else c.problems))
  }

  /** Before its start a contest is shown without problems; from its start on, with all of them. */
  lemma ProblemsHiddenUntilStart(all: seq<Contest>, param: string, viewer: Option<Viewer>, creatorExists: bool, now: int)
    requires ViewContest(all, param, viewer, creatorExists, now).Shown?
    ensures var c := FindContest(all, param).value;
      var shown := ViewContest(all, param, viewer, creatorExists, now).contest;
      (shown.problems == [] <==> now < c.startTime || c.problems == [])
  {
  }

  /** Every contest a list request shows can be opened by the same requester. */
  lemma ListedIsViewable(c: Contest, status: Option<string>, viewer: Option<Viewer>, now: int)
    requires Listed(c, status, viewer, now)
    ensures MayView(c, viewer)
  {
  }

  // ----- registerContest -----

  datatype RegisterResponse =
    | RegisterNotFound       // 404
    | InvalidPassword        // 400
    | AlreadyRegistered      // 400
    | Registered             // 200
    | RegisterFailed         // 500: the id does not cast to an ObjectId

  /**
   * The password check. As written it compares against the `password` of the
   * document `findById` loaded, which never holds it (`select: false`); the
   * corrected check compares against the stored password.
   */
  predicate PasswordRejected(v: Variant, c: Contest, password: Option<string>) {
    c.visibility == PasswordProtected &&
    (if v == AsWritten then Loaded(c).password != password else c.password != password)
  }

  /** The response of `registerContest` for a contest that exists. */
  function RegisterOutcome(v: Variant, c: Contest, userId: Id, password: Option<string>): (r: RegisterResponse)
    ensures r == InvalidPassword <==> PasswordRejected(v, c, password)
    ensures r == AlreadyRegistered <==> !PasswordRejected(v, c, password) && userId in c.registeredUsers
    ensures r == Registered <==> !PasswordRejected(v, c, password) && userId !in c.registeredUsers
  {
    if PasswordRejected(v, c, password) then InvalidPassword
    else if userId in c.registeredUsers then AlreadyRegistered
    else Registered
  }

  /** The contest after a registration outcome: the user appended on success, unchanged otherwise. */
  function AfterRegister(c: Contest, userId: Id, r: RegisterResponse): (c': Contest)
    ensures r == Registered ==> c'.registeredUsers == c.registeredUsers + [userId]
    ensures r != Registered ==> c' == c
    ensures c' == c.(registeredUsers := c'.registeredUsers)
  {
    if r == Registered then c.(registeredUsers := c.registeredUsers + [userId]) else c
  }

  /** A successful registration makes the next attempt by the same user fail as already registered. */
  lemma RegisterTwice(v: Variant, c: Contest, userId: Id, password: Option<string>)
    requires RegisterOutcome(v, c, userId, password) == Registered
    ensures RegisterOutcome(v, AfterRegister(c, userId, Registered), userId, password) == AlreadyRegistered
  {
    assert userId in c.registeredUsers + [userId];
    assert Loaded(AfterRegister(c, userId, Registered)).password == None;
  }

  /** Registration never introduces a duplicate into `registeredUsers`. */
  lemma RegisterKeepsDistinct(v: Variant, c: Contest, userId: Id, password: Option<string>)
    requires NoDuplicates(c.registeredUsers)
    ensures NoDuplicates(AfterRegister(c, userId, RegisterOutcome(v, c, userId, password)).registeredUsers)
  {
  }

  /**
   * As written, a password-protected contest rejects every supplied password,
   * the right one included, and admits a request that supplies none.
   */
  lemma PasswordNeverLoaded(c: Contest, userId: Id, secret: string)
    requires c.visibility == PasswordProtected && c.password == Some(secret)
    requires userId !in c.registeredUsers
    ensures RegisterOutcome(AsWritten, c, userId, Some(secret)) == InvalidPassword
    ensures RegisterOutcome(AsWritten, c, userId, None) == Registered
  {
  }

  /** Corrected, a password-protected contest admits exactly the requests carrying its password. */
  lemma PasswordChecked(c: Contest, userId: Id, password: Option<string>, secret: string)
    requires c.visibility == PasswordProtected && c.password == Some(secret)
    requires userId !in c.registeredUsers
    ensures RegisterOutcome(Corrected, c, userId, password) == Registered <==> password == Some(secret)
  {
  }

  /** The contests collection, whose documents `registerContest` saves. */
  class ContestStore {
    var contests: map<Id, Contest>

    constructor (initial: map<Id, Contest>)
      ensures contests == initial
    {
      contests := initial;
    }

    /** `registerContest`: load the contest, check it, push the user and save. */
    method Register(v: Variant, contestId: Id, userId: Id, password: Option<string>) returns (r: RegisterResponse)
      modifies this
      ensures !IsObjectIdString(contestId) ==> r == RegisterFailed && contests == old(contests)
      ensures IsObjectIdString(contestId) && contestId !in old(contests) ==> r == RegisterNotFound && contests == old(contests)
      ensures IsObjectIdString(contestId) && contestId in old(contests) ==>
        var c := old(contests)[contestId];
        && r == RegisterOutcome(v, c, userId, password)
        && contests == old(contests)[contestId := AfterRegister(c, userId, r)]
    {
      if !IsObjectIdString(contestId) {
        return RegisterFailed;
      }
      if contestId !in contests {
        return RegisterNotFound;
      }
      var contest := contests[contestId];
      var seen := if v == AsWritten then Loaded(contest).password else contest.password;
      if contest.visibility == PasswordProtected && seen != password {
        return InvalidPassword;
      }
      if userId in contest.registeredUsers {
        return AlreadyRegistered;
      }
      contest := contest.(registeredUsers := contest.registeredUsers + [userId]);
      contests := contests[contestId := contest];
      r := Registered;
    }
  }
}
