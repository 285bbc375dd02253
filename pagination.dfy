/**
 * The pagination arithmetic shared by the list handlers: query parameters
 * parsed with `parseInt(q) || default`, `skip = (page - 1) * limit`, the
 * `skip`/`limit` window MongoDB applies, and `Math.ceil(total / limit)`.
 */
module Pagination {
  import opened Wrappers

  /**
   * `parseInt(q) || d`. The query value is None when it is absent or does not
   * parse (NaN); a parsed 0 is falsy and also falls back to the default.
   */
  function QueryInt(q: Option<int>, d: int): (v: int)
    ensures v == d || (q.Some? && v == q.value)
    ensures v == d <== q.None? || q.value == 0
    ensures d != 0 ==> v != 0
  {
    if q.Some? && q.value != 0 then q.value else d
  }

  /** `Math.floor(a / b)` on the reals, for integer operands of any sign. */
  function FloorDiv(a: int, b: int): (q: int)
    requires b != 0
    ensures b > 0 ==> q * b <= a < (q + 1) * b
    ensures b < 0 ==> (q + 1) * b < a <= q * b
  {
    if b > 0 then a / b else (-a) / (-b)
  }

  /** `Math.ceil(a / b)` on the reals, for integer operands of any sign. */
  function CeilDiv(a: int, b: int): (q: int)
    requires b != 0
    ensures b > 0 ==> (q - 1) * b < a <= q * b
    ensures b < 0 ==> q * b <= a < (q - 1) * b
  {
    -FloorDiv(-a, b)
  }

  /** `Math.ceil(total / limit)`: the number of pages the handler reports. */
  function TotalPages(total: nat, limit: int): (n: int)
    requires limit != 0
    ensures limit > 0 ==> n >= 0 && (n - 1) * limit < total <= n * limit
  {
    CeilDiv(total, limit)
  }

  function Abs(x: int): nat {
    if x < 0 then -x else x
  }

  function Min(a: int, b: int): int {
    if a <= b then a else b
  }

  /**
   * The number of documents on page `page` of `n` matches: `limit` of them,
   * fewer on the last page, none past it.
   */
  function PageLength(n: nat, page: int, limit: int): nat {
    if n <= (page - 1) * limit then 0 else Min(Abs(limit), n - (page - 1) * limit)
  }

  /**
   * `find(...).skip((page - 1) * limit).limit(limit)` over the sorted matches:
   * a negative skip makes the query fail (None); a negative limit returns at
   * most `-limit` documents, as MongoDB does.
   */
  function Window<T>(items: seq<T>, page: int, limit: int): (w: Option<seq<T>>)
    ensures w.None? <==> (page - 1) * limit < 0
    ensures w.Some? ==> |w.value| <= Abs(limit)
    ensures w.Some? ==> |w.value| == PageLength(|items|, page, limit)
    ensures w.Some? ==> forall j :: 0 <= j < |w.value| ==> (page - 1) * limit + j < |items| && w.value[j] == items[(page - 1) * limit + j]
  {
    var skip := (page - 1) * limit;
    if skip < 0 then None
    else
      var lo := Min(skip, |items|);
      Some(items[lo..Min(skip + Abs(limit), |items|)])
  }

  /**
   * With a positive limit, every matching document lies on exactly the page
   * `i / limit + 1`, which is among the `TotalPages` pages reported.
   */
  lemma PageOfIndex<T>(items: seq<T>, limit: int, i: nat)
    requires limit > 0 && i < |items|
    ensures var p := i / limit + 1;
      && 1 <= p <= TotalPages(|items|, limit)
      && Window(items, p, limit).Some?
      && i % limit < |Window(items, p, limit).value|
      && Window(items, p, limit).value[i % limit] == items[i]
  {
    var p := i / limit + 1;
    var n := TotalPages(|items|, limit);
    var q, r := i / limit, i % limit;
    assert q * limit + r == i && 0 <= r < limit;
    assert q >= 0;
    if q >= n {
      MulMonotone(n, q, limit);
      assert false;
    }
    var skip := q * limit;
    assert (p - 1) * limit == skip;
    assert Min(skip, |items|) == skip;
  }

  lemma MulMonotone(a: int, b: int, c: nat)
    requires a <= b
    ensures a * c <= b * c
  {
    assert b * c - a * c == (b - a) * c;
  }
}
