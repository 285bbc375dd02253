/**
 * Collection helpers the handlers apply to query results: `filter`, counting,
 * summing, and a stable sort by a two-part key (the comparators of the
 * leaderboards).
 */
module Seqs {

  /** `s.filter(p)`: the elements satisfying `p`, in their original order. */
  function Filter<T>(s: seq<T>, p: T -> bool): (r: seq<T>)
    ensures |r| <= |s|
    ensures forall i :: 0 <= i < |r| ==> r[i] in s && p(r[i])
    ensures forall i :: 0 <= i < |s| && p(s[i]) ==> s[i] in r
    ensures multiset(r) <= multiset(s)
    decreases |s|
  {
    if s == [] then []
    else
      assert s == [s[0]] + s[1..];
      if p(s[0]) then [s[0]] + Filter(s[1..], p) else Filter(s[1..], p)
  }

  /** Filtering distributes over concatenation. */
  lemma {:induction false} FilterAppend<T>(a: seq<T>, b: seq<T>, p: T -> bool)
    ensures Filter(a + b, p) == Filter(a, p) + Filter(b, p)
    decreases |a|
  {
    if a == [] {
      assert a + b == b;
    } else {
      assert (a + b)[0] == a[0];
      assert (a + b)[1..] == a[1..] + b;
      FilterAppend(a[1..], b, p);
    }
  }

  /** The number of elements satisfying `p`, as `countDocuments` reports it. */
  function Count<T>(s: seq<T>, p: T -> bool): (n: nat)
    ensures n == |Filter(s, p)|
    decreases |s|
  {
    if s == [] then 0 else (if p(s[0]) then 1 else 0) + Count(s[1..], p)
  }

  function Sum(s: seq<int>): int
    decreases |s|
  {
    if s == [] then 0 else s[0] + Sum(s[1..])
  }

  lemma {:induction false} SumAppend(a: seq<int>, b: seq<int>)
    ensures Sum(a + b) == Sum(a) + Sum(b)
    decreases |a|
  {
    if a == [] {
      assert a + b == b;
    } else {
      assert (a + b)[1..] == a[1..] + b;
      SumAppend(a[1..], b);
    }
  }

  /** A sum of non-negative terms is zero only when every term is. */
  lemma {:induction false} SumZero(s: seq<int>)
    requires forall i :: 0 <= i < |s| ==> s[i] >= 0
    ensures Sum(s) >= 0
    ensures Sum(s) == 0 ==> forall i :: 0 <= i < |s| ==> s[i] == 0
    decreases |s|
  {
    if s != [] {
      SumZero(s[1..]);
      assert forall i :: 1 <= i < |s| ==> s[1..][i - 1] == s[i];
    }
  }

  predicate NoDuplicates<T(==)>(s: seq<T>) {
    forall i, j :: 0 <= i < j < |s| ==> s[i] != s[j]
  }

  /** Appending an element that is not yet present keeps a sequence free of duplicates. */
  lemma NoDuplicatesAppend<T>(s: seq<T>, x: T)
    requires NoDuplicates(s) && x !in s
    ensures NoDuplicates(s + [x])
  {
    var s' := s + [x];
    forall i, j | 0 <= i < j < |s'|
      ensures s'[i] != s'[j]
    {
      if j == |s| {
        assert s'[i] == s[i];
      } else {
        assert s'[i] == s[i] && s'[j] == s[j];
      }
    }
  }

  /** Two rearrangements of each other have the same elements. */
  lemma SameElements<T>(a: seq<T>, b: seq<T>)
    requires multiset(a) == multiset(b)
    ensures |a| == |b|
    ensures forall k :: 0 <= k < |a| ==> exists i :: 0 <= i < |b| && b[i] == a[k]
  {
    assert |a| == |multiset(a)| == |multiset(b)| == |b|;
    forall k | 0 <= k < |a|
      ensures exists i :: 0 <= i < |b| && b[i] == a[k]
    {
      assert a[k] in multiset(b);
    }
  }

  /** A property of every element holds for every element of a rearrangement. */
  lemma PermutationPreserves<T>(a: seq<T>, b: seq<T>, p: T -> bool)
    requires multiset(a) == multiset(b)
    requires forall i :: 0 <= i < |b| ==> p(b[i])
    ensures forall k :: 0 <= k < |a| ==> p(a[k])
  {
    SameElements(a, b);
  }

  /** The elements of a sequence, as a JavaScript `Set` built from it holds them. */
  function Elems<T>(s: seq<T>): set<T> {
    set x | x in s
  }

  /** A sequence without duplicates has as many elements as its set. */
  lemma {:induction false} DistinctCard<T>(s: seq<T>)
    requires NoDuplicates(s)
    ensures |Elems(s)| == |s|
    decreases |s|
  {
    if s != [] {
      var t := s[..|s| - 1];
      assert NoDuplicates(t);
      DistinctCard(t);
      assert Elems(s) == Elems(t) + {s[|s| - 1]};
      assert s[|s| - 1] !in Elems(t);
    }
  }

  /** `[...new Set(s)]`: the elements of `s` without repeats, each where it first occurs. */
  function Distinct<T(==)>(s: seq<T>): (r: seq<T>)
    ensures NoDuplicates(r)
    ensures forall i :: 0 <= i < |r| ==> r[i] in s
    ensures forall i :: 0 <= i < |s| ==> s[i] in r
    ensures |r| <= |s|
    decreases |s|
  {
    if s == [] then []
    else
      var init := Distinct(s[..|s| - 1]);
      var last := s[|s| - 1];
      assert s == s[..|s| - 1] + [last];
      if last in init then init
      else
        NoDuplicatesAppend(init, last);
        init + [last]
  }

  /** Of a sequence that never increases, `Distinct` keeps a strictly decreasing one. */
  lemma {:induction false} DistinctDescending(s: seq<int>)
    requires forall i, j :: 0 <= i < j < |s| ==> s[i] >= s[j]
    ensures forall i, j :: 0 <= i < j < |Distinct(s)| ==> Distinct(s)[i] > Distinct(s)[j]
    decreases |s|
  {
    if s != [] {
      var init := s[..|s| - 1];
      var last := s[|s| - 1];
      DistinctDescending(init);
      var d := Distinct(init);
      if last !in d {
        forall i | 0 <= i < |d| ensures d[i] > last {
          var k :| 0 <= k < |init| && init[k] == d[i];
          assert s[k] >= s[|s| - 1];
        }
      }
    }
  }

  /** Filtering keeps a sequence free of duplicates. */
  lemma {:induction false} FilterDistinct<T>(s: seq<T>, p: T -> bool)
    requires NoDuplicates(s)
    ensures NoDuplicates(Filter(s, p))
    decreases |s|
  {
    if s != [] {
      assert NoDuplicates(s[1..]);
      FilterDistinct(s[1..], p);
      if p(s[0]) {
        var rest := Filter(s[1..], p);
        assert s[0] !in s[1..];
        assert s[0] !in rest;
        assert NoDuplicates([s[0]] + rest);
      }
    }
  }

  /** Counting over one more element. */
  lemma CountSnoc<T>(s: seq<T>, x: T, p: T -> bool)
    ensures Count(s + [x], p) == Count(s, p) + (if p(x) then 1 else 0)
  {
    FilterAppend(s, [x], p);
    assert [x][1..] == [];
  }

  /** Fewer elements satisfy a stronger condition. */
  lemma {:induction false} CountMonotone<T>(s: seq<T>, p: T -> bool, q: T -> bool)
    requires forall x :: p(x) ==> q(x)
    ensures Count(s, p) <= Count(s, q)
    decreases |s|
  {
    if s != [] {
      CountMonotone(s[1..], p, q);
    }
  }

  /** Every element satisfies either `p` or its negation `q`. */
  lemma {:induction false} CountComplement<T>(s: seq<T>, p: T -> bool, q: T -> bool)
    requires forall x :: q(x) == !p(x)
    ensures Count(s, p) + Count(s, q) == |s|
    decreases |s|
  {
    if s != [] {
      CountComplement(s[1..], p, q);
    }
  }

  /** One more element of a prefix, for loops that filter as they go. */
  lemma FilterStep<T>(s: seq<T>, i: nat, p: T -> bool)
    requires i < |s|
    ensures Filter(s[..i + 1], p) == if p(s[i]) then Filter(s[..i], p) + [s[i]] else Filter(s[..i], p)
  {
    assert s[..i + 1] == s[..i] + [s[i]];
    FilterAppend(s[..i], [s[i]], p);
    assert [s[i]][1..] == [];
  }

  /** One more element of a prefix, for loops that count as they go. */
  lemma CountStep<T>(s: seq<T>, i: nat, p: T -> bool)
    requires i < |s|
    ensures Count(s[..i + 1], p) == Count(s[..i], p) + (if p(s[i]) then 1 else 0)
  {
    assert s[..i + 1] == s[..i] + [s[i]];
    CountSnoc(s[..i], s[i], p);
  }

  /** Filtering twice by the same condition filters once. */
  lemma {:induction false} FilterIdempotent<T>(s: seq<T>, p: T -> bool)
    ensures Filter(Filter(s, p), p) == Filter(s, p)
    decreases |s|
  {
    if s != [] {
      FilterIdempotent(s[1..], p);
      if p(s[0]) {
        var r := [s[0]] + Filter(s[1..], p);
        assert r[0] == s[0] && r[1..] == Filter(s[1..], p);
      }
    }
  }

  /** `s.map(f)`. */
  function Map<T, U>(s: seq<T>, f: T -> U): (r: seq<U>)
    ensures |r| == |s|
    ensures forall i :: 0 <= i < |s| ==> r[i] == f(s[i])
  {
    seq(|s|, i requires 0 <= i < |s| => f(s[i]))
  }

  /** In a sequence without duplicates every element occurs once. */
  lemma {:induction false} DistinctOnce<T>(s: seq<T>, x: T)
    requires NoDuplicates(s)
    ensures multiset(s)[x] <= 1
    decreases |s|
  {
    if s != [] {
      var init := s[..|s| - 1];
      assert s == init + [s[|s| - 1]];
      assert NoDuplicates(init);
      DistinctOnce(init, x);
      if x == s[|s| - 1] {
        assert x !in init;
      }
    }
  }

  /** A rearrangement of a sequence without duplicates has none either. */
  lemma PermutationDistinct<T>(a: seq<T>, b: seq<T>)
    requires multiset(a) == multiset(b)
    requires NoDuplicates(b)
    ensures NoDuplicates(a)
  {
    forall i, j | 0 <= i < j < |a|
      ensures a[i] != a[j]
    {
      if a[i] == a[j] {
        var x := a[i];
        assert a == a[..j] + [a[j]] + a[j + 1..];
        assert x in a[..j];
        assert multiset(a[..j])[x] >= 1;
        assert multiset(a)[x] >= 2;
        DistinctOnce(b, x);
        assert false;
      }
    }
  }

  /** A two-part sort key, compared lexicographically. */
  datatype Key = Key(primary: int, secondary: int)

  predicate KeyLe(a: Key, b: Key) {
    a.primary < b.primary || (a.primary == b.primary && a.secondary <= b.secondary)
  }

  predicate SortedBy<T>(s: seq<T>, key: T -> Key) {
    forall i, j :: 0 <= i < j < |s| ==> KeyLe(key(s[i]), key(s[j]))
  }

  /** Insert `x` before the first element whose key is not smaller, so after those with smaller keys only. */
  function Insert<T>(x: T, s: seq<T>, key: T -> Key): (r: seq<T>)
    requires SortedBy(s, key)
    ensures SortedBy(r, key)
    ensures multiset(r) == multiset(s) + multiset{x}
    ensures |r| == |s| + 1
    decreases |s|
  {
    if s == [] then [x]
    else if KeyLe(key(x), key(s[0])) then [x] + s
    else
      var rest := Insert(x, s[1..], key);
      assert s == [s[0]] + s[1..];
      BoundedByMultiset(rest, s[1..], x, key, key(s[0]));
      [s[0]] + rest
  }

  /** A lower bound of `x` and of every element of `s` bounds every element of a rearrangement of both. */
  lemma BoundedByMultiset<T>(r: seq<T>, s: seq<T>, x: T, key: T -> Key, b: Key)
    requires multiset(r) == multiset(s) + multiset{x}
    requires KeyLe(b, key(x))
    requires forall j :: 0 <= j < |s| ==> KeyLe(b, key(s[j]))
    ensures forall i :: 0 <= i < |r| ==> KeyLe(b, key(r[i]))
  {
    forall i | 0 <= i < |r| ensures KeyLe(b, key(r[i])) {
      var y := r[i];
      assert y in multiset(r);
      if y != x {
        assert y in multiset(s);
        var j :| 0 <= j < |s| && s[j] == y;
      }
    }
  }

  /** Prepending an element no greater than any other keeps a sequence sorted. */
  lemma ConsSorted<T>(x: T, rest: seq<T>, key: T -> Key)
    requires SortedBy(rest, key)
    requires forall i :: 0 <= i < |rest| ==> KeyLe(key(x), key(rest[i]))
    ensures SortedBy([x] + rest, key)
  {
    var r := [x] + rest;
    forall i, j | 0 <= i < j < |r| ensures KeyLe(key(r[i]), key(r[j])) {
      if i > 0 { assert r[i] == rest[i - 1] && r[j] == rest[j - 1]; }
      else { assert r[j] == rest[j - 1]; }
    }
  }

  /** In a sorted sequence the head is no greater than anything the filter keeps of the tail. */
  lemma HeadBelowFiltered<T>(s: seq<T>, p: T -> bool, key: T -> Key)
    requires s != [] && SortedBy(s, key)
    ensures forall i :: 0 <= i < |Filter(s[1..], p)| ==> KeyLe(key(s[0]), key(Filter(s[1..], p)[i]))
  {
    var rest := Filter(s[1..], p);
    forall i | 0 <= i < |rest| ensures KeyLe(key(s[0]), key(rest[i])) {
      var k :| 0 <= k < |s[1..]| && s[1..][k] == rest[i];
      assert s[1..][k] == s[k + 1];
    }
  }

  /** Filtering keeps a sequence sorted. */
  lemma {:induction false} FilterSorted<T>(s: seq<T>, p: T -> bool, key: T -> Key)
    requires SortedBy(s, key)
    ensures SortedBy(Filter(s, p), key)
    decreases |s|
  {
    if s != [] {
      assert SortedBy(s[1..], key);
      FilterSorted(s[1..], p, key);
      if p(s[0]) {
        HeadBelowFiltered(s, p, key);
        ConsSorted(s[0], Filter(s[1..], p), key);
      }
    }
  }

  /** A stable sort by `key` (shown by `SortStable`), the result of `Array.prototype.sort` with a consistent comparator. */
  function SortBy<T>(s: seq<T>, key: T -> Key): (r: seq<T>)
    ensures SortedBy(r, key)
    ensures multiset(r) == multiset(s)
    ensures |r| == |s|
    decreases |s|
  {
    if s == [] then []
    else
      assert s == [s[0]] + s[1..];
      Insert(s[0], SortBy(s[1..], key), key)
  }

  /** The elements whose key is `k`. */
  function WithKey<T>(key: T -> Key, k: Key): T -> bool {
    x => key(x) == k
  }

  /** Filtering a sequence with a given head. */
  lemma FilterCons<T>(y: T, t: seq<T>, p: T -> bool)
    ensures Filter([y] + t, p) == (if p(y) then [y] else []) + Filter(t, p)
  {
    assert ([y] + t)[1..] == t;
  }

  /** Inserting `x` puts it ahead of every element with the same key and leaves their order alone. */
  lemma {:induction false} InsertStable<T>(x: T, s: seq<T>, key: T -> Key, k: Key)
    requires SortedBy(s, key)
    ensures Filter(Insert(x, s, key), WithKey(key, k)) == (if key(x) == k then [x] else []) + Filter(s, WithKey(key, k))
    decreases |s|
  {
    var p := WithKey(key, k);
    if s == [] {
      FilterCons(x, [], p);
      assert [x] + [] == [x];
    } else if KeyLe(key(x), key(s[0])) {
      FilterCons(x, s, p);
    } else {
      InsertUnfold(x, s, key);
      InsertStable(x, s[1..], key, k);
      assert s == [s[0]] + s[1..];
      InsertPast(x, s[0], s[1..], Insert(x, s, key), Insert(x, s[1..], key), p);
    }
  }

  /** Where `x` belongs after the head of `s`, the head stays in front. */
  lemma InsertUnfold<T>(x: T, s: seq<T>, key: T -> Key)
    requires s != [] && SortedBy(s, key) && !KeyLe(key(x), key(s[0]))
    ensures SortedBy(s[1..], key)
    ensures Insert(x, s, key) == [s[0]] + Insert(x, s[1..], key)
  {
  }

  /** The filtering step of `InsertStable` where `x` goes past the head `y` of `y :: t`. */
  lemma InsertPast<T>(x: T, y: T, t: seq<T>, whole: seq<T>, rest: seq<T>, p: T -> bool)
    requires p(x) ==> !p(y)
    requires whole == [y] + rest
    requires Filter(rest, p) == (if p(x) then [x] else []) + Filter(t, p)
    ensures Filter(whole, p) == (if p(x) then [x] else []) + Filter([y] + t, p)
  {
    FilterCons(y, rest, p);
    FilterCons(y, t, p);
    SkipOne(Filter(whole, p), Filter(rest, p), Filter([y] + t, p), Filter(t, p),
            if p(x) then [x] else [], if p(y) then [y] else []);
  }

  /** The sequence step behind `InsertPast`: at most one of the two heads `hx`, `hy` is present. */
  lemma SkipOne<T>(fw: seq<T>, fr: seq<T>, fyt: seq<T>, ft: seq<T>, hx: seq<T>, hy: seq<T>)
    requires hx == [] || hy == []
    requires fw == hy + fr && fr == hx + ft && fyt == hy + ft
    ensures fw == hx + fyt
  {
    if hx == [] {
      assert fr == ft;
      assert hx + fyt == fyt;
    } else {
      assert fw == fr && fyt == ft;
    }
  }

  /**
   * The sort is stable: the elements sharing any one key come out in the
   * order they came in.
   */
  lemma {:induction false} SortStable<T>(s: seq<T>, key: T -> Key, k: Key)
    ensures Filter(SortBy(s, key), WithKey(key, k)) == Filter(s, WithKey(key, k))
    decreases |s|
  {
    if s != [] {
      SortStable(s[1..], key, k);
      InsertStable(s[0], SortBy(s[1..], key), key, k);
    }
  }

  /** Two elements with the same key stay in their order. */
  lemma SortTie<T>(a: T, b: T, key: T -> Key)
    requires key(a) == key(b)
    ensures SortBy([a, b], key) == [a, b]
  {
    assert [a, b][1..] == [b];
    assert [b][1..] == [];
    assert SortBy([b], key) == [b];
  }
}
