/**
 * The problem handlers: the paginated list with its difficulty, tag and
 * visibility filters, the read permission of a single problem, the edit and
 * delete permissions with the slug regeneration on a new title, the
 * per-problem leaderboard (each user's best accepted submission) and the
 * list of problems a user has solved.
 */
module Problems {
  import opened Wrappers
  import opened Pagination
  import opened Models
  import opened Seqs
  import opened Strings

  // ----- getAllProblems -----

  /** `req.query.tags`: absent, one value (`?tags=a`) or several (`?tags=a&tags=b`). */
  datatype TagsQuery = NoTags | OneTag(tag: string) | TagList(tags: seq<string>)

  /**
   * The `$in` list of the tag filter, None when the filter is not applied: a
   * single value becomes a one-element list; an array is always truthy, so
   * even an empty one applies (and then matches nothing).
   */
  function TagFilter(q: TagsQuery): (r: Option<seq<string>>)
    ensures r.None? <==> q.NoTags? || (q.OneTag? && q.tag == "")
    ensures q.OneTag? && r.Some? ==> r.value == [q.tag]
    ensures q.TagList? ==> r == Some(q.tags)
  {
    match q
    case NoTags => None
    case OneTag(t) => if t == "" then None else Some([t])
    case TagList(ts) => Some(ts)
  }

  datatype ProblemQuery = ProblemQuery(page: Option<int>, limit: Option<int>, difficulty: Option<string>, tags: TagsQuery)

  /** The whole `filter` object of `getAllProblems`. */
  predicate MatchesProblem(p: Problem, q: ProblemQuery, viewer: Option<Viewer>) {
    && (q.difficulty.Some? && q.difficulty.value != "" ==> DifficultyName(p.difficulty) == q.difficulty.value)
    && (TagFilter(q.tags).Some? ==> exists t :: t in p.tags && t in TagFilter(q.tags).value)
    && (IsAdmin(viewer) || p.isPublic)
  }

  /** A single tag and a one-element array select the same problems. */
  lemma SingleTagAsList(p: Problem, q: ProblemQuery, viewer: Option<Viewer>, t: string)
    requires t != ""
    ensures MatchesProblem(p, q.(tags := OneTag(t)), viewer) <==> MatchesProblem(p, q.(tags := TagList([t])), viewer)
    ensures MatchesProblem(p, q.(tags := OneTag(t)), viewer) ==> t in p.tags
  {
  }

  datatype ListResponse =
    | ListFailed      // 500: the query threw (a negative skip)
    | ProblemPage(count: nat, total: nat, totalPages: int, currentPage: int, data: seq<Problem>)

  /** `getAllProblems`. `all` is the collection in the order of the requested sort key. */
  function ListProblems(all: seq<Problem>, q: ProblemQuery, viewer: Option<Viewer>): (r: ListResponse)
    ensures var page := QueryInt(q.page, 1);
      var limit := QueryInt(q.limit, 10);
      var matches := Filter(all, p => MatchesProblem(p, q, viewer));
      && (r.ListFailed? <==> (page - 1) * limit < 0)
      && (r.ProblemPage? ==>
            && r.total == |matches|
            && r.totalPages == TotalPages(|matches|, limit)
            && r.currentPage == page
            && r.count == |r.data| == PageLength(|matches|, page, limit)
            && forall j :: 0 <= j < |r.data| ==>
                 (page - 1) * limit + j < |matches| && r.data[j] == matches[(page - 1) * limit + j])
  {
    var page := QueryInt(q.page, 1);
    var limit := QueryInt(q.limit, 10);
    var matches := Filter(all, p => MatchesProblem(p, q, viewer));
    match Window(matches, page, limit)
    case None => ListFailed
    case Some(w) => ProblemPage(|w|, Count(all, p => MatchesProblem(p, q, viewer)), TotalPages(|matches|, limit), page, w)
  }

  /** Anyone who is not an admin is only ever listed public problems. */
  lemma NonAdminListsPublicProblems(all: seq<Problem>, q: ProblemQuery, viewer: Option<Viewer>)
    requires !IsAdmin(viewer)
    ensures var r := ListProblems(all, q, viewer);
      r.ProblemPage? ==> forall j :: 0 <= j < |r.data| ==> r.data[j].isPublic
  {
    var r := ListProblems(all, q, viewer);
    var matches := Filter(all, p => MatchesProblem(p, q, viewer));
    if r.ProblemPage? {
      forall j | 0 <= j < |r.data|
        ensures r.data[j].isPublic
      {
        var k := (QueryInt(q.page, 1) - 1) * QueryInt(q.limit, 10) + j;
        assert MatchesProblem(matches[k], q, viewer);
      }
    }
  }

  // ----- getProblemById / getProblemBySlug -----

  /** A private problem may be read by its creator and by admins; a public one by anyone. */
  predicate MayRead(p: Problem, viewer: Option<Viewer>)
    ensures p.isPublic || IsAdmin(viewer) ==> MayRead(p, viewer)
    ensures viewer.None? ==> (MayRead(p, viewer) <==> p.isPublic)
    ensures viewer.Some? && !IsAdmin(viewer) && viewer.value.id != p.createdBy ==> (MayRead(p, viewer) <==> p.isPublic)
  {
    p.isPublic || (viewer.Some? && (viewer.value.id == p.createdBy || viewer.value.role == "admin"))
  }

  datatype ReadResponse =
    | ReadNotFound        // 404
    | ReadForbidden       // 403
    | ReadFailed          // 500
    | ReadShown(problem: Problem)

  /**
   * The permission check of `getProblemById` and `getProblemBySlug`. `found`
   * is the outcome of the lookup, `creatorExists` whether `createdBy` still
   * populates. The check compares `createdBy.toString()` with the requester's
   * id; after `populate` that is the string form of the creator's document,
   * never a bare id, so as written the creator test never succeeds (and a
   * creator that no longer exists makes it throw). The corrected variant
   * compares the creator's id.
   */
  function ReadProblem(v: Variant, found: Lookup<Problem>, creatorExists: bool, viewer: Option<Viewer>): (r: ReadResponse)
    ensures r == ReadNotFound <==> found.Missing?
    ensures r == ReadFailed <==> found.LookupFailed? || (found.Found? && !found.doc.isPublic && viewer.Some? && !creatorExists)
    ensures r.ReadShown? ==> found.Found? && r.problem == found.doc && MayRead(found.doc, viewer)
    ensures v == Corrected && found.Found? && (viewer.Some? ==> creatorExists) ==> (r.ReadShown? <==> MayRead(found.doc, viewer))
    ensures v == AsWritten && r.ReadShown? ==> found.doc.isPublic || IsAdmin(viewer)
  {
    match found
    case Missing => ReadNotFound
    case LookupFailed => ReadFailed
    case Found(p) =>
      if p.isPublic then ReadShown(p)
      else if viewer.None? then ReadForbidden
      else if !creatorExists then ReadFailed
      else
        var isCreator := v == Corrected && viewer.value.id == p.createdBy;
        if !isCreator && viewer.value.role != "admin" then ReadForbidden
        else ReadShown(p)
  }

  /** As written, the creator of a private problem who is not an admin is refused it; corrected, it is shown. */
  lemma CreatorLockedOut()
    ensures var p := NewProblem("p", "t", "t", Easy, [], [], None, None, [], "u", Some(false));
      var viewer := Some(Viewer("u", "user"));
      && MayRead(p, viewer)
      && ReadProblem(AsWritten, Found(p), true, viewer) == ReadForbidden
      && ReadProblem(Corrected, Found(p), true, viewer) == ReadShown(p)
  {
  }

  // ----- editProblem / deleteProblem -----

  /** Only the creator and admins may edit or delete a problem. */
  predicate MayModify(p: Problem, viewer: Viewer) {
    viewer.id == p.createdBy || viewer.role == "admin"
  }

  /**
   * The slug the update writes (None: the update leaves the slug alone). A
   * supplied title that differs from the current one replaces any slug of
   * the body by `slugify(title)`; otherwise the body's own slug, if any, is
   * written.
   */
  function EditedSlug(title: Option<string>, slug: Option<string>, p: Problem, slugify: string -> string): (r: Option<string>)
    ensures title.Some? && title.value != "" && title.value != p.title ==> r == Some(slugify(title.value))
    ensures (title.None? || title.value == "" || title.value == p.title) ==> r == slug
  {
    if title.Some? && title.value != "" && title.value != p.title then Some(slugify(title.value)) else slug
  }

  /** The slug `createProblem` puts in the new document, before the setters: the body's, or `slugify(title)` when that is absent or empty. */
  function InitialSlug(title: string, slug: Option<string>, slugify: string -> string): (r: string)
    ensures slug.Some? && slug.value != "" ==> r == slug.value
    ensures slug.None? || slug.value == "" ==> r == slugify(title)
  {
    if slug.Some? && slug.value != "" then slug.value else slugify(title)
  }

  datatype EditResponse =
    | EditNotFound      // 404
    | EditForbidden     // 403
    | DuplicateSlug     // 400: A problem with that slug already exists
    | EditFailed        // 500: a cast error or a validation error
    | EditedProblem(problem: Problem)

  /** The schema's constraint on a title: required (non-empty) and `maxlength: 200`, a bound on its UTF-16 length. */
  predicate ValidTitle(t: string) {
    t != "" && Utf16Length(t) <= 200
  }

  /** The slug as the schema's `trim` and `lowercase` setters store it. */
  function StoredSlug(s: string): string {
    ToLower(Trim(s))
  }

  /**
   * `runValidators` on the update: a title the body sets must be a valid
   * title once trimmed, and the slug written must not be empty once trimmed
   * (both paths are `required`).
   */
  predicate UpdateValid(title: Option<string>, s: Option<string>) {
    && (title.Some? ==> ValidTitle(Trim(title.value)))
    && (s.Some? ==> StoredSlug(s.value) != "")
  }

  /** The document after the update: the title and slug the body sets, as the setters store them. */
  function Updated(p: Problem, title: Option<string>, s: Option<string>): Problem {
    p.(title := if title.Some? then Trim(title.value) else p.title,
       slug := if s.Some? then StoredSlug(s.value) else p.slug)
  }

  /**
   * `editProblem` for a body that may set `title` and `slug`. `otherSlugs`
   * are the slugs of the other problems, against which the unique index
   * rejects the update; the update's validators run first.
   */
  function EditProblem(found: Lookup<Problem>, viewer: Viewer, title: Option<string>, slug: Option<string>,
                       otherSlugs: set<string>, slugify: string -> string): (r: EditResponse)
    ensures r == EditNotFound <==> found.Missing?
    ensures r == EditForbidden <==> found.Found? && !MayModify(found.doc, viewer)
    ensures r == EditFailed <==>
      || found.LookupFailed?
      || (found.Found? && MayModify(found.doc, viewer) && !UpdateValid(title, EditedSlug(title, slug, found.doc, slugify)))
    ensures r == DuplicateSlug <==>
      && found.Found? && MayModify(found.doc, viewer)
      && UpdateValid(title, EditedSlug(title, slug, found.doc, slugify))
      && EditedSlug(title, slug, found.doc, slugify).Some?
      && StoredSlug(EditedSlug(title, slug, found.doc, slugify).value) in otherSlugs
    ensures r.EditedProblem? ==> found.Found?
    ensures r.EditedProblem? && found.Found? ==>
      var p := found.doc;
      var s := EditedSlug(title, slug, p, slugify);
      && MayModify(p, viewer)
      && r.problem == Updated(p, title, s)
      && (title.Some? ==> ValidTitle(r.problem.title))
      && (s.Some? ==> r.problem.slug != "" && r.problem.slug !in otherSlugs)
      && (title.Some? && title.value != p.title ==> r.problem.slug == StoredSlug(slugify(title.value)))
  {
    assert Trim("") == "";
    match found
    case Missing => EditNotFound
    case LookupFailed => EditFailed
    case Found(p) =>
      if !MayModify(p, viewer) then EditForbidden
      else
        var s := EditedSlug(title, slug, p, slugify);
        if !UpdateValid(title, s) then EditFailed
        else if s.Some? && StoredSlug(s.value) in otherSlugs then DuplicateSlug
        else EditedProblem(Updated(p, title, s))
  }

  /** An empty retitled slug, and a title of blanks, are refused by the validators. */
  lemma EditRejectsEmpty(p: Problem, viewer: Viewer, otherSlugs: set<string>, slugify: string -> string)
    requires MayModify(p, viewer)
    ensures EditProblem(Found(p), viewer, None, Some(""), otherSlugs, slugify) == EditFailed
    ensures EditProblem(Found(p), viewer, Some("  "), None, otherSlugs, slugify) == EditFailed
  {
    assert Trim("") == "";
    assert !UpdateValid(None, Some(""));
    assert Trim("  ") == "" by { TrimSpec("  "); }
    assert !ValidTitle(Trim("  "));
    assert !UpdateValid(Some("  "), None);
  }

  /** A title of 101 astral characters (emoji, say) is 202 UTF-16 units long and is refused. */
  lemma EditRejectsAstralTitle(p: Problem, viewer: Viewer, title: string, otherSlugs: set<string>, slugify: string -> string)
    requires MayModify(p, viewer)
    requires |title| == 101 && forall i :: 0 <= i < |title| ==> IsAstral(title[i])
    ensures EditProblem(Found(p), viewer, Some(title), None, otherSlugs, slugify) == EditFailed
  {
    assert !IsWhitespace(title[0]) && !IsWhitespace(title[|title| - 1]);
    TrimSpec(title);
    assert Trim(title) == title;
    assert Utf16Length(title) == 202;
  }

  /**
   * An edit that keeps the title and supplies no slug keeps the slug, and
   * the whole document when its title is stored trimmed, as the schema's
   * setter stores it.
   */
  lemma SlugStableWithoutRetitle(found: Lookup<Problem>, viewer: Viewer, otherSlugs: set<string>, slugify: string -> string)
    requires found.Found? && Trim(found.doc.title) == found.doc.title
    ensures var r := EditProblem(found, viewer, Some(found.doc.title), None, otherSlugs, slugify);
      r.EditedProblem? ==> r.problem.slug == found.doc.slug && r.problem == found.doc
  {
    var p := found.doc;
    assert EditedSlug(Some(p.title), None, p, slugify) == None;
    assert Updated(p, Some(p.title), None) == p;
  }

  datatype DeleteResponse =
    | DeleteNotFound    // 404
    | DeleteForbidden   // 403
    | DeleteFailed      // 500
    | ProblemDeleted

  /** `deleteProblem`: the lookup, then the creator-or-admin check. */
  function DeleteProblem(found: Lookup<Problem>, viewer: Viewer): (r: DeleteResponse)
    ensures r == ProblemDeleted <==> found.Found? && MayModify(found.doc, viewer)
    ensures r == DeleteForbidden <==> found.Found? && !MayModify(found.doc, viewer)
    ensures r == DeleteNotFound <==> found.Missing?
  {
    match found
    case Missing => DeleteNotFound
    case LookupFailed => DeleteFailed
    case Found(p) => if MayModify(p, viewer) then ProblemDeleted else DeleteForbidden
  }

  // ----- getLeaderboard -----

  /** `a` sorts no later than `b` under `{ executionTime: 1, memoryUsage: 1, submittedAt: 1 }`. */
  predicate NoWorse(a: Submission, b: Submission) {
    || a.executionTime < b.executionTime
    || (a.executionTime == b.executionTime && a.memoryUsage < b.memoryUsage)
    || (a.executionTime == b.executionTime && a.memoryUsage == b.memoryUsage && a.submittedAt <= b.submittedAt)
  }

  /** The `$match` stage: the accepted submissions of the problem. */
  function AcceptedOn(subs: seq<Submission>, pid: Id): (r: seq<Submission>)
    ensures forall i :: 0 <= i < |r| ==> r[i] in subs && r[i].problem == pid && r[i].status == Accepted
    ensures forall i :: 0 <= i < |subs| && subs[i].problem == pid && subs[i].status == Accepted ==> subs[i] in r
  {
    Filter(subs, (s: Submission) => s.problem == pid && s.status == Accepted)
  }

  /** The `$first` of user `u`'s group after the sort: one of its submissions that no other beats. */
  function BestOf(subs: seq<Submission>, u: Id): (r: Option<Submission>)
    ensures r.None? <==> forall i :: 0 <= i < |subs| ==> subs[i].user != u
    ensures r.Some? ==> r.value in subs && r.value.user == u
    ensures r.Some? ==> forall i :: 0 <= i < |subs| && subs[i].user == u ==> NoWorse(r.value, subs[i])
    decreases |subs|
  {
    if subs == [] then None
    else
      var rest := BestOf(subs[1..], u);
      assert forall i :: 1 <= i < |subs| ==> subs[i] == subs[1..][i - 1];
      if subs[0].user != u then rest
      else if rest.None? || NoWorse(subs[0], rest.value) then Some(subs[0])
      else rest
  }

  /** One leaderboard row: the grouped fields and the user, as `$project` shapes them. */
  datatype BestRow = BestRow(user: Id, executionTime: int, memoryUsage: int, language: Language, submittedAt: int)

  function RowOf(s: Submission): BestRow {
    BestRow(s.user, s.executionTime, s.memoryUsage, s.language, s.submittedAt)
  }

  /** The row of user `u`'s group; a user without a group has none, and the placeholder is never used. */
  function RowFor(subs: seq<Submission>, u: Id): BestRow {
    match BestOf(subs, u)
    case Some(s) => RowOf(s)
    case None => BestRow(u, 0, 0, C, 0)
  }

  /** The final `$sort: { executionTime: 1, memoryUsage: 1 }`. */
  function BestKey(r: BestRow): Key {
    Key(r.executionTime, r.memoryUsage)
  }

  /**
   * The groups as `$group` and `$lookup`/`$unwind` leave them: one row per
   * user that still exists (`users`), in an arbitrary order.
   */
  function Grouped(cands: seq<Submission>, users: set<Id>): seq<BestRow> {
    Map(Distinct(Map(Filter(cands, (s: Submission) => s.user in users), (s: Submission) => s.user)),
        (u: Id) => RowFor(cands, u))
  }

  /** The groups after the final sort. */
  function SortedGroups(cands: seq<Submission>, users: set<Id>): seq<BestRow> {
    SortBy(Grouped(cands, users), BestKey)
  }

  /** The pipeline of `getLeaderboard` after the problem lookup. */
  function LeaderboardRows(subs: seq<Submission>, pid: Id, users: set<Id>): seq<BestRow> {
    SortedGroups(AcceptedOn(subs, pid), users)
  }

  /** The row of a user is the best among the candidates of that user. */
  ghost predicate BestRowOf(cands: seq<Submission>, users: set<Id>, row: BestRow) {
    && row.user in users
    && row == RowFor(cands, row.user)
    && exists k :: 0 <= k < |cands| && cands[k].user == row.user
  }

  /** What a row of the leaderboard states about the submissions. */
  lemma RowMeaning(subs: seq<Submission>, pid: Id, users: set<Id>, row: BestRow)
    requires BestRowOf(AcceptedOn(subs, pid), users, row)
    ensures exists s :: (s in subs && s.user == row.user && s.problem == pid && s.status == Accepted && row == RowOf(s)
      && forall i :: 0 <= i < |subs| && subs[i].user == row.user && subs[i].problem == pid && subs[i].status == Accepted ==>
           NoWorse(s, subs[i]))
  {
    var cands := AcceptedOn(subs, pid);
    var best := BestOf(cands, row.user);
    var s := best.value;
    assert s in cands;
    forall i | 0 <= i < |subs| && subs[i].user == row.user && subs[i].problem == pid && subs[i].status == Accepted
      ensures NoWorse(s, subs[i])
    {
      assert subs[i] in cands;
    }
  }

  /** The users of the groups, each once. */
  function GroupUsers(cands: seq<Submission>, users: set<Id>): seq<Id> {
    Distinct(Map(Filter(cands, (s: Submission) => s.user in users), (s: Submission) => s.user))
  }

  lemma GroupedUsers(cands: seq<Submission>, users: set<Id>)
    ensures var g := Grouped(cands, users);
      var us := GroupUsers(cands, users);
      |g| == |us| && forall i :: 0 <= i < |g| ==> g[i] == RowFor(cands, us[i]) && g[i].user == us[i]
  {
    var us := GroupUsers(cands, users);
    forall i | 0 <= i < |us| ensures RowFor(cands, us[i]).user == us[i] {
      ghost var kept := Filter(cands, (s: Submission) => s.user in users);
      ghost var names := Map(kept, (s: Submission) => s.user);
      assert us[i] in names;
      var j :| 0 <= j < |names| && names[j] == us[i];
      assert kept[j] in cands;
    }
  }

  /** Every row of the unsorted groups is a correct best row. */
  lemma GroupedRowsCorrect(cands: seq<Submission>, users: set<Id>)
    ensures var g := Grouped(cands, users);
      forall i :: 0 <= i < |g| ==> BestRowOf(cands, users, g[i])
  {
    var kept := Filter(cands, (s: Submission) => s.user in users);
    var names := Map(kept, (s: Submission) => s.user);
    var us := GroupUsers(cands, users);
    var g := Grouped(cands, users);
    GroupedUsers(cands, users);
    forall i | 0 <= i < |g|
      ensures BestRowOf(cands, users, g[i])
    {
      assert us[i] in names;
      var j :| 0 <= j < |names| && names[j] == us[i];
      assert kept[j] in cands && kept[j].user == us[i] && us[i] in users;
      var k :| 0 <= k < |cands| && cands[k] == kept[j];
    }
  }

  /** The groups have distinct users, so they are distinct rows. */
  lemma GroupedDistinct(cands: seq<Submission>, users: set<Id>)
    ensures NoDuplicates(Grouped(cands, users))
  {
    var us := GroupUsers(cands, users);
    var g := Grouped(cands, users);
    GroupedUsers(cands, users);
    forall i, j | 0 <= i < j < |g|
      ensures g[i] != g[j]
    {
      assert us[i] != us[j];
    }
  }

  /** Every candidate whose user exists has the group of that user. */
  lemma GroupedComplete(cands: seq<Submission>, users: set<Id>)
    ensures var g := Grouped(cands, users);
      forall c :: 0 <= c < |cands| && cands[c].user in users ==> exists i :: 0 <= i < |g| && g[i].user == cands[c].user
  {
    var kept := Filter(cands, (s: Submission) => s.user in users);
    var names := Map(kept, (s: Submission) => s.user);
    var us := GroupUsers(cands, users);
    var g := Grouped(cands, users);
    GroupedUsers(cands, users);
    forall c | 0 <= c < |cands| && cands[c].user in users
      ensures exists i :: 0 <= i < |g| && g[i].user == cands[c].user
    {
      assert cands[c] in kept;
      var j :| 0 <= j < |kept| && kept[j] == cands[c];
      assert names[j] == cands[c].user;
      var i :| 0 <= i < |us| && us[i] == names[j];
      assert g[i].user == cands[c].user;
    }
  }

  /** After the final sort the rows are still correct best rows, one per user. */
  lemma SortedRowsCorrect(cands: seq<Submission>, users: set<Id>)
    ensures var rows := SortedGroups(cands, users);
      && (forall i, j :: 0 <= i < j < |rows| ==> rows[i].user != rows[j].user)
      && (forall i :: 0 <= i < |rows| ==> BestRowOf(cands, users, rows[i]))
  {
    var g := Grouped(cands, users);
    var rows := SortBy(g, BestKey);
    GroupedRowsCorrect(cands, users);
    GroupedDistinct(cands, users);
    PermutationDistinct(rows, g);
    PermutationPreserves(rows, g, (row: BestRow) => BestRowOf(cands, users, row));
    forall i, j | 0 <= i < j < |rows|
      ensures rows[i].user != rows[j].user
    {
      assert BestRowOf(cands, users, rows[i]) && BestRowOf(cands, users, rows[j]);
    }
  }

  /** A rearrangement of rows covering the candidates' users covers them too. */
  lemma PermutationCovers(g: seq<BestRow>, rows: seq<BestRow>, cands: seq<Submission>, users: set<Id>)
    requires multiset(rows) == multiset(g)
    requires forall c :: 0 <= c < |cands| && cands[c].user in users ==> exists i :: 0 <= i < |g| && g[i].user == cands[c].user
    ensures forall c :: 0 <= c < |cands| && cands[c].user in users ==> exists i :: 0 <= i < |rows| && rows[i].user == cands[c].user
  {
    SameElements(g, rows);
    forall c | 0 <= c < |cands| && cands[c].user in users
      ensures exists i :: 0 <= i < |rows| && rows[i].user == cands[c].user
    {
      var i :| 0 <= i < |g| && g[i].user == cands[c].user;
      var i' :| 0 <= i' < |rows| && rows[i'] == g[i];
    }
  }

  /** After the final sort every candidate whose user exists still has a row. */
  lemma SortedRowsComplete(cands: seq<Submission>, users: set<Id>)
    ensures forall c :: 0 <= c < |cands| && cands[c].user in users ==>
      exists i :: 0 <= i < |SortedGroups(cands, users)| && SortedGroups(cands, users)[i].user == cands[c].user
  {
    var g := Grouped(cands, users);
    GroupedComplete(cands, users);
    PermutationCovers(g, SortedGroups(cands, users), cands, users);
  }

  /**
   * The problem leaderboard: ordered by execution time, then memory; one row
   * per user; each row the best accepted submission of its user (see
   * RowMeaning); and every existing user with an accepted submission has a
   * row.
   */
  lemma LeaderboardCorrect(subs: seq<Submission>, pid: Id, users: set<Id>)
    ensures var rows := LeaderboardRows(subs, pid, users);
      && SortedBy(rows, BestKey)
      && (forall i, j :: 0 <= i < j < |rows| ==> rows[i].user != rows[j].user)
      && (forall i :: 0 <= i < |rows| ==> BestRowOf(AcceptedOn(subs, pid), users, rows[i]))
      && forall k :: 0 <= k < |subs| && subs[k].problem == pid && subs[k].status == Accepted && subs[k].user in users ==>
           exists i :: 0 <= i < |rows| && rows[i].user == subs[k].user
  {
    var cands := AcceptedOn(subs, pid);
    SortedRowsCorrect(cands, users);
    SortedRowsComplete(cands, users);
    forall k | 0 <= k < |subs| && subs[k].problem == pid && subs[k].status == Accepted && subs[k].user in users
      ensures exists c :: 0 <= c < |cands| && cands[c].user == subs[k].user
    {
      assert subs[k] in cands;
    }
  }

  datatype LeaderboardResponse =
    | LeaderboardNotFound     // 404
    | LeaderboardFailed       // 500
    | Leaderboard(count: nat, rows: seq<BestRow>)

  /** `getLeaderboard`: the problem lookup, then the pipeline. */
  function ProblemLeaderboard(found: Lookup<Problem>, pid: Id, subs: seq<Submission>, users: set<Id>): (r: LeaderboardResponse)
    ensures r.LeaderboardNotFound? <==> found.Missing?
    ensures r.LeaderboardFailed? <==> found.LookupFailed?
    ensures r.Leaderboard? ==> r.count == |r.rows| && r.rows == LeaderboardRows(subs, pid, users)
  {
    match found
    case Missing => LeaderboardNotFound
    case LookupFailed => LeaderboardFailed
    case Found(_) =>
      var rows := LeaderboardRows(subs, pid, users);
      Leaderboard(|rows|, rows)
  }

  // ----- getSolvedProblems -----

  /** The accepted submission `s` of `user` solves its problem. */
  predicate SolvedBy(s: Submission, user: Id) {
    s.user == user && s.status == Accepted
  }

  function IsSolvedBy(user: Id): Submission -> bool {
    (s: Submission) => SolvedBy(s, user)
  }

  function ProblemRef(): Submission -> Id {
    (s: Submission) => s.problem
  }

  /** Every id `distinct` yields comes from an accepted submission of the user. */
  lemma DistinctSolvedSound(subs: seq<Submission>, user: Id)
    ensures forall i :: 0 <= i < |Distinct(Map(Filter(subs, IsSolvedBy(user)), ProblemRef()))| ==>
      exists k :: 0 <= k < |subs| && SolvedBy(subs[k], user) && subs[k].problem == Distinct(Map(Filter(subs, IsSolvedBy(user)), ProblemRef()))[i]
  {
    var solved := Filter(subs, IsSolvedBy(user));
    var ids := Map(solved, ProblemRef());
    var r := Distinct(ids);
    forall i | 0 <= i < |r|
      ensures exists k :: 0 <= k < |subs| && SolvedBy(subs[k], user) && subs[k].problem == r[i]
    {
      var j :| 0 <= j < |ids| && ids[j] == r[i];
      assert solved[j] in subs && IsSolvedBy(user)(solved[j]);
      var k :| 0 <= k < |subs| && subs[k] == solved[j];
    }
  }

  /** Every problem the user has an accepted submission for is among the ids `distinct` yields. */
  lemma DistinctSolvedComplete(subs: seq<Submission>, user: Id)
    ensures forall k :: 0 <= k < |subs| && SolvedBy(subs[k], user) ==>
      subs[k].problem in Distinct(Map(Filter(subs, IsSolvedBy(user)), ProblemRef()))
  {
    var solved := Filter(subs, IsSolvedBy(user));
    var ids := Map(solved, ProblemRef());
    forall k | 0 <= k < |subs| && SolvedBy(subs[k], user)
      ensures subs[k].problem in Distinct(ids)
    {
      assert IsSolvedBy(user)(subs[k]);
      var j :| 0 <= j < |solved| && solved[j] == subs[k];
      assert ids[j] == subs[k].problem;
    }
  }

  /**
   * Each solved problem once: `Submission.distinct('problem', { user, status:
   * 'accepted' })` in the dashboard, and the `$match` and `$group` stages of
   * `getSolvedProblems`.
   */
  function AcceptedProblemIds(subs: seq<Submission>, user: Id): (r: seq<Id>)
    ensures NoDuplicates(r)
    ensures forall i :: 0 <= i < |r| ==> exists k :: 0 <= k < |subs| && SolvedBy(subs[k], user) && subs[k].problem == r[i]
    ensures forall k :: 0 <= k < |subs| && SolvedBy(subs[k], user) ==> subs[k].problem in r
  {
    DistinctSolvedSound(subs, user);
    DistinctSolvedComplete(subs, user);
    Distinct(Map(Filter(subs, IsSolvedBy(user)), ProblemRef()))
  }

  /**
   * `getSolvedProblems`: the solved problems that still exist (`$unwind`
   * drops a group whose `$lookup` found no problem), each once.
   */
  function SolvedProblems(subs: seq<Submission>, problems: map<Id, Problem>, user: Id): (r: seq<Id>)
    ensures NoDuplicates(r)
    ensures forall i :: 0 <= i < |r| ==>
      && r[i] in problems
      && exists k :: 0 <= k < |subs| && SolvedBy(subs[k], user) && subs[k].problem == r[i]
    ensures forall k :: 0 <= k < |subs| && SolvedBy(subs[k], user) && subs[k].problem in problems ==> subs[k].problem in r
  {
    var ids := AcceptedProblemIds(subs, user);
    FilterDistinct(ids, (id: Id) => id in problems);
    Filter(ids, (id: Id) => id in problems)
  }
}
