/**
 * The two maintenance scripts over the submissions collection:
 * `cleanupSubmissions` rewrites problem references that hold a slug into the
 * id of the problem with that slug, and `deleteBrokenSubmissions` deletes
 * the submissions whose problem reference leads nowhere.
 */
module Scripts {
  import opened Wrappers
  import opened Models
  import opened Seqs

  // ----- cleanupSubmissions -----

  /** `Problem.findOne({ slug })`: the first problem with that slug. */
  function FindBySlug(problems: seq<Problem>, slug: string): (r: Option<Problem>)
    ensures r.None? <==> forall i :: 0 <= i < |problems| ==> problems[i].slug != slug
    ensures r.Some? ==> r.value in problems && r.value.slug == slug
    decreases |problems|
  {
    if problems == [] then None
    else if problems[0].slug == slug then Some(problems[0])
    else
      assert forall i :: 1 <= i < |problems| ==> problems[i] == problems[1..][i - 1];
      FindBySlug(problems[1..], slug)
  }

  /** The reference is present but is not an ObjectId: it is taken to be a slug. */
  predicate HoldsSlug(s: Submission) {
    s.problem != "" && !IsObjectIdString(s.problem)
  }

  /** A submission the script rewrites: it holds a slug that some problem has. */
  predicate Repairable(problems: seq<Problem>, s: Submission) {
    HoldsSlug(s) && FindBySlug(problems, s.problem).Some?
  }

  /** One step of the loop: a repairable submission points at its problem's id, any other is left alone. */
  function Repaired(problems: seq<Problem>, s: Submission): Submission {
    if Repairable(problems, s) then s.(problem := FindBySlug(problems, s.problem).value.id) else s
  }

  function IsRepairable(problems: seq<Problem>): Submission -> bool {
    (s: Submission) => Repairable(problems, s)
  }

  function RepairWith(problems: seq<Problem>): Submission -> Submission {
    (s: Submission) => Repaired(problems, s)
  }

  /** The number of repairable submissions among the first `i`, as the loop counts them. */
  function RepairableInPrefix(problems: seq<Problem>, s: seq<Submission>, i: nat): nat
    requires i <= |s|
  {
    if i == 0 then 0 else RepairableInPrefix(problems, s, i - 1) + (if Repairable(problems, s[i - 1]) then 1 else 0)
  }

  lemma {:induction false} RepairableInPrefixCounts(problems: seq<Problem>, s: seq<Submission>, i: nat)
    requires i <= |s|
    ensures RepairableInPrefix(problems, s, i) == Count(s[..i], IsRepairable(problems))
  {
    if i > 0 {
      RepairableInPrefixCounts(problems, s, i - 1);
      CountStep(s, i - 1, IsRepairable(problems));
      assert IsRepairable(problems)(s[i - 1]) == Repairable(problems, s[i - 1]);
    }
  }

  /**
   * The body of the repair loop for one submission: the rewritten document,
   * and whether it was rewritten.
   */
  method RepairOne(sub: Submission, problems: seq<Problem>) returns (doc: Submission, repaired: bool)
    ensures doc == Repaired(problems, sub)
    ensures repaired == Repairable(problems, sub)
    ensures !repaired ==> doc == sub
  {
    doc, repaired := sub, false;
    if sub.problem != "" && !IsObjectIdString(sub.problem) {
      var problem := FindBySlug(problems, sub.problem);
      if problem.Some? {
        doc := sub.(problem := problem.value.id);
        repaired := true;
      }
    }
  }

  /**
   * The repair loop: each submission is rewritten in place as `Repaired`
   * says, and `repairedCount` counts the rewritten ones.
   */
  method CleanupSubmissions(subs: array<Submission>, problems: seq<Problem>) returns (repairedCount: nat)
    modifies subs
    ensures forall k :: 0 <= k < subs.Length ==> subs[k] == Repaired(problems, old(subs[k]))
    ensures repairedCount == Count(old(subs[..]), IsRepairable(problems))
  {
    ghost var before := subs[..];
    repairedCount := 0;
    for i := 0 to subs.Length
      invariant forall k :: 0 <= k < i ==> subs[k] == Repaired(problems, before[k])
      invariant forall k :: i <= k < subs.Length ==> subs[k] == before[k]
      invariant repairedCount == RepairableInPrefix(problems, before, i)
    {
      var repaired := RepairAt(subs, i, problems);
      if repaired {
        repairedCount := repairedCount + 1;
      }
    }
    assert repairedCount == Count(before, IsRepairable(problems)) by {
      RepairableInPrefixCounts(problems, before, subs.Length);
      assert before[..subs.Length] == before;
    }
  }

  /** One iteration of the repair loop: slot `i` is saved rewritten when it is repairable, and no other slot changes. */
  method RepairAt(subs: array<Submission>, i: nat, problems: seq<Problem>) returns (repaired: bool)
    requires i < subs.Length
    modifies subs
    ensures subs[i] == Repaired(problems, old(subs[i]))
    ensures repaired == Repairable(problems, old(subs[i]))
    ensures forall k :: 0 <= k < subs.Length && k != i ==> subs[k] == old(subs[k])
  {
    var doc;
    doc, repaired := RepairOne(subs[i], problems);
    if repaired {
      subs[i] := doc;
    }
  }

  /** A rewritten reference is the id of a problem whose slug was the old value; nothing else changes. */
  lemma RepairTarget(problems: seq<Problem>, s: Submission)
    requires Repairable(problems, s)
    ensures exists k :: 0 <= k < |problems| && problems[k].slug == s.problem && Repaired(problems, s).problem == problems[k].id
    ensures Repaired(problems, s) == s.(problem := Repaired(problems, s).problem)
  {
    var p := FindBySlug(problems, s.problem).value;
    var k :| 0 <= k < |problems| && problems[k] == p;
  }

  /** A submission with a valid reference, an empty one, or a slug no problem has is untouched. */
  lemma RepairLeavesOthers(problems: seq<Problem>, s: Submission)
    requires !Repairable(problems, s)
    ensures Repaired(problems, s) == s
  {
  }

  /**
   * When every problem id is an ObjectId, a submission is rewritten exactly
   * when the script changes it, and after one run a second run repairs
   * nothing.
   */
  lemma RepairChanges(problems: seq<Problem>, s: Submission)
    requires forall k :: 0 <= k < |problems| ==> IsObjectIdString(problems[k].id)
    ensures Repaired(problems, s) != s <==> Repairable(problems, s)
    ensures !Repairable(problems, Repaired(problems, s))
  {
    if Repairable(problems, s) {
      RepairTarget(problems, s);
    }
  }

  lemma {:induction false} CleanupIdempotent(problems: seq<Problem>, subs: seq<Submission>)
    requires forall k :: 0 <= k < |problems| ==> IsObjectIdString(problems[k].id)
    ensures Count(Map(subs, RepairWith(problems)), IsRepairable(problems)) == 0
    decreases |subs|
  {
    var after := Map(subs, RepairWith(problems));
    if subs != [] {
      CleanupIdempotent(problems, subs[1..]);
      RepairChanges(problems, subs[0]);
      assert after[1..] == Map(subs[1..], RepairWith(problems));
    }
  }

  // ----- the documents as `Submission.find({})` loads them -----

  /**
   * Mongoose casts each stored path to its schema type when it loads a
   * document. `problem` is an ObjectId path: a stored value that does not
   * cast is recorded as a cast error and the path is left unset, which the
   * model writes as the empty reference.
   */
  function Load(s: Submission): Submission {
    if IsObjectIdString(s.problem) then s else s.(problem := "")
  }

  function LoadDoc(): Submission -> Submission {
    (s: Submission) => Load(s)
  }

  /** A loaded document never holds a slug, so the guard of the repair loop never lets one through. */
  lemma LoadedNotRepairable(problems: seq<Problem>, s: Submission)
    ensures !HoldsSlug(Load(s)) && !Repairable(problems, Load(s))
    ensures Repaired(problems, Load(s)) == Load(s)
  {
  }

  /**
   * As written, the script loops over loaded documents: it repairs none of
   * them and leaves every one as it was loaded, whatever was stored.
   */
  lemma {:induction false} LoadedCleanupRepairsNothing(problems: seq<Problem>, subs: seq<Submission>)
    ensures Count(Map(subs, LoadDoc()), IsRepairable(problems)) == 0
    ensures Map(Map(subs, LoadDoc()), RepairWith(problems)) == Map(subs, LoadDoc())
    decreases |subs|
  {
    var loaded := Map(subs, LoadDoc());
    if subs != [] {
      LoadedCleanupRepairsNothing(problems, subs[1..]);
      LoadedNotRepairable(problems, subs[0]);
      assert loaded[1..] == Map(subs[1..], LoadDoc());
    }
    forall k | 0 <= k < |loaded| ensures Map(loaded, RepairWith(problems))[k] == loaded[k] {
      LoadedNotRepairable(problems, subs[k]);
    }
  }

  /**
   * A submission that stores the slug of an existing problem is what the
   * script is for: read raw it is repairable, loaded it is not.
   */
  lemma StoredSlugSkippedOnLoad()
    ensures var p := Problem("0123456789abcdef01234567", "Two Sum", "two-sum", Easy, [], [], 1000, 256, [], "", true, 0, 0);
      var s := Submission("s", "u", "two-sum", None, CppLang, "", Pending, [], 0, 0, true, 0);
      && Repairable([p], s) && Repaired([p], s).problem == p.id
      && !Repairable([p], Load(s)) && Load(s).problem == ""
  {
    var p := Problem("0123456789abcdef01234567", "Two Sum", "two-sum", Easy, [], [], 1000, 256, [], "", true, 0, 0);
    var s := Submission("s", "u", "two-sum", None, CppLang, "", Pending, [], 0, 0, true, 0);
    assert |"two-sum"| == 7;
    assert FindBySlug([p], "two-sum") == Some(p);
  }

  // ----- deleteBrokenSubmissions -----

  /** `validProblemIds`: the ids of every problem. */
  function ValidProblemIds(problems: seq<Problem>): set<Id> {
    set p | p in problems :: p.id
  }

  /** `!sub.problem || !validProblemIds.has(sub.problem)`. */
  predicate Broken(valid: set<Id>, s: Submission) {
    s.problem == "" || s.problem !in valid
  }

  function IsBroken(valid: set<Id>): Submission -> bool {
    (s: Submission) => Broken(valid, s)
  }

  function IsIntact(valid: set<Id>): Submission -> bool {
    (s: Submission) => !Broken(valid, s)
  }

  /**
   * The deletion loop: `remaining` is the collection afterwards, the
   * submissions that are not broken in their original order, and
   * `deletedCount` counts the deleted ones.
   */
  method DeleteBrokenSubmissions(subs: seq<Submission>, problems: seq<Problem>) returns (remaining: seq<Submission>, deletedCount: nat)
    ensures remaining == Filter(subs, IsIntact(ValidProblemIds(problems)))
    ensures deletedCount == Count(subs, IsBroken(ValidProblemIds(problems)))
    ensures deletedCount + |remaining| == |subs|
  {
    var validProblemIds := ValidProblemIds(problems);
    remaining := [];
    deletedCount := 0;
    for i := 0 to |subs|
      invariant remaining == Filter(subs[..i], IsIntact(validProblemIds))
      invariant deletedCount == Count(subs[..i], IsBroken(validProblemIds))
    {
      var sub := subs[i];
      FilterStep(subs, i, IsIntact(validProblemIds));
      CountStep(subs, i, IsBroken(validProblemIds));
      if sub.problem == "" || sub.problem !in validProblemIds {
        deletedCount := deletedCount + 1;
      } else {
        remaining := remaining + [sub];
      }
    }
    assert subs[..|subs|] == subs;
    CountComplement(subs, IsBroken(validProblemIds), IsIntact(validProblemIds));
  }

  /** Afterwards every remaining submission references an existing problem, and none was deleted that did. */
  lemma DeleteLeavesIntact(subs: seq<Submission>, problems: seq<Problem>)
    ensures var remaining := Filter(subs, IsIntact(ValidProblemIds(problems)));
      && (forall i :: 0 <= i < |remaining| ==>
            remaining[i].problem != "" && exists k :: 0 <= k < |problems| && problems[k].id == remaining[i].problem)
      && forall i :: 0 <= i < |subs| && subs[i].problem != "" && (exists k :: 0 <= k < |problems| && problems[k].id == subs[i].problem) ==>
           subs[i] in remaining
  {
    var valid := ValidProblemIds(problems);
    var remaining := Filter(subs, IsIntact(valid));
    forall i | 0 <= i < |remaining|
      ensures exists k :: 0 <= k < |problems| && problems[k].id == remaining[i].problem
    {
      assert IsIntact(valid)(remaining[i]);
      var p :| p in problems && p.id == remaining[i].problem;
      var k :| 0 <= k < |problems| && problems[k] == p;
    }
    forall i | 0 <= i < |subs| && subs[i].problem != "" && (exists k :: 0 <= k < |problems| && problems[k].id == subs[i].problem)
      ensures subs[i] in remaining
    {
      var k :| 0 <= k < |problems| && problems[k].id == subs[i].problem;
      assert problems[k] in problems;
    }
  }

  /** A second run over the remaining submissions deletes nothing. */
  lemma DeleteIdempotent(subs: seq<Submission>, problems: seq<Problem>)
    ensures var remaining := Filter(subs, IsIntact(ValidProblemIds(problems)));
      Count(remaining, IsBroken(ValidProblemIds(problems))) == 0
  {
    var valid := ValidProblemIds(problems);
    var keep := IsIntact(valid);
    var remaining := Filter(subs, keep);
    CountComplement(remaining, IsBroken(valid), keep);
    FilterIdempotent(subs, keep);
    assert Count(remaining, IsIntact(valid)) == |Filter(remaining, keep)|;
  }

  /**
   * Loading does not change which submissions `deleteBrokenSubmissions`
   * deletes when every problem id is an ObjectId: a reference that does
   * not cast names no problem either way.
   */
  lemma LoadKeepsBroken(problems: seq<Problem>, s: Submission)
    requires forall k :: 0 <= k < |problems| ==> IsObjectIdString(problems[k].id)
    ensures Broken(ValidProblemIds(problems), Load(s)) <==> Broken(ValidProblemIds(problems), s)
  {
  }
}
