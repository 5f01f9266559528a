/**
 * The listing rule that the dashboard API, the sponsors page and the user
 * dashboard each write out: keep the items whose name contains the search
 * term ignoring case, in their original order, then cut a fixed-size page
 * with `slice((page - 1) * n, page * n)` and report `ceil(count / n)` pages.
 */
module Listing {
  import opened Text

  // ---------------------------------------------------------------------------
  // Search
  // ---------------------------------------------------------------------------

  /** `name(x).toLowerCase().includes(term.toLowerCase())`. */
  predicate NameMatches<T>(name: T -> string, term: string, x: T) {
    Includes(Lower(name(x)), Lower(term))
  }

  /** `xs.filter(x => NameMatches(name, term, x))`. */
  function FilterByName<T>(xs: seq<T>, name: T -> string, term: string): (r: seq<T>)
    ensures |r| <= |xs|
    ensures forall i :: 0 <= i < |r| ==> r[i] in xs && NameMatches(name, term, r[i])
    ensures forall i :: 0 <= i < |xs| && NameMatches(name, term, xs[i]) ==> xs[i] in r
    decreases |xs|
  {
    if |xs| == 0 then []
    else (if NameMatches(name, term, xs[0]) then [xs[0]] else []) + FilterByName(xs[1..], name, term)
  }

  /** The filter distributes over concatenation: it keeps items in their original relative order. */
  lemma {:induction false} FilterConcat<T>(xs: seq<T>, ys: seq<T>, name: T -> string, term: string)
    ensures FilterByName(xs + ys, name, term) == FilterByName(xs, name, term) + FilterByName(ys, name, term)
    decreases |xs|
  {
    if |xs| == 0 {
      assert xs + ys == ys;
    } else {
      assert (xs + ys)[1..] == xs[1..] + ys;
      FilterConcat(xs[1..], ys, name, term);
    }
  }

  /** When every item matches, the filter returns the list unchanged. */
  lemma {:induction false} FilterAllMatch<T>(xs: seq<T>, name: T -> string, term: string)
    requires forall i :: 0 <= i < |xs| ==> NameMatches(name, term, xs[i])
    ensures FilterByName(xs, name, term) == xs
    decreases |xs|
  {
    if |xs| > 0 {
      FilterAllMatch(xs[1..], name, term);
      assert xs == [xs[0]] + xs[1..];
    }
  }

  /** When no item matches, the filter returns nothing. */
  lemma {:induction false} FilterNoneMatch<T>(xs: seq<T>, name: T -> string, term: string)
    requires forall i :: 0 <= i < |xs| ==> !NameMatches(name, term, xs[i])
    ensures FilterByName(xs, name, term) == []
    decreases |xs|
  {
    if |xs| > 0 {
      FilterNoneMatch(xs[1..], name, term);
    }
  }

  /** The empty term is contained in every name, so it keeps every item, in order. */
  lemma FilterEmptyTerm<T>(xs: seq<T>, name: T -> string)
    ensures FilterByName(xs, name, "") == xs
  {
    forall i | 0 <= i < |xs|
      ensures NameMatches(name, "", xs[i])
    {
      IncludesEmpty(Lower(name(xs[i])));
    }
    FilterAllMatch(xs, name, "");
  }

  /** The search ignores case: lower-casing the term first changes nothing. */
  lemma {:induction false} FilterIgnoresTermCase<T>(xs: seq<T>, name: T -> string, term: string)
    ensures FilterByName(xs, name, Lower(term)) == FilterByName(xs, name, term)
    decreases |xs|
  {
    LowerIdempotent(term);
    if |xs| > 0 {
      FilterIgnoresTermCase(xs[1..], name, term);
    }
  }

  /** Filtering twice by the same term is filtering once. */
  lemma {:induction false} FilterIdempotent<T>(xs: seq<T>, name: T -> string, term: string)
    ensures FilterByName(FilterByName(xs, name, term), name, term) == FilterByName(xs, name, term)
  {
    var r := FilterByName(xs, name, term);
    FilterAllMatch(r, name, term);
  }

  // ---------------------------------------------------------------------------
  // Pagination
  // ---------------------------------------------------------------------------

  function Min(a: int, b: int): int {
    if a <= b then a else b
  }

  lemma MulMonotone(a: int, b: int, n: nat)
    requires a <= b
    ensures a * n <= b * n
  {
  }

  /**
   * `Math.ceil(c / n)` for a positive page size, as integer ceiling
   * division: the least page count whose pages hold all `c` items.
   */
  function CeilDiv(c: nat, n: nat): (r: nat)
    requires n >= 1
    ensures r * n >= c
    ensures r == 0 || (r - 1) * n < c
  {
    var q := (c + n - 1) / n;
    assert (c + n - 1) == q * n + (c + n - 1) % n;
    q
  }

  /** `xs.slice(start, end)` for non-negative bounds, both clipped to the length. */
  function JsSlice<T>(xs: seq<T>, start: nat, end: nat): (r: seq<T>)
    ensures start <= end && start <= |xs| ==> r == xs[start..Min(end, |xs|)]
    ensures end <= start || |xs| <= start ==> r == []
  {
    var from := Min(start, |xs|);
    var to := Min(end, |xs|);
    if from < to then xs[from..to] else []
  }

  /** Number of pages reported for `c` items at `n` per page. */
  function TotalPages(c: nat, n: nat): nat
    requires n >= 1
  {
    CeilDiv(c, n)
  }

  /** Page `page` (counted from 1) of `xs` at `n` items per page: `xs.slice((page - 1) * n, page * n)`. */
  function Page<T>(xs: seq<T>, page: int, n: nat): (r: seq<T>)
    requires page >= 1 && n >= 1
    ensures |r| <= n
    ensures forall i :: 0 <= i < |r| ==> r[i] in xs
  {
    MulMonotone(0, page - 1, n);
    JsSlice(xs, (page - 1) * n, page * n)
  }

  /** A page that starts inside the list is the window `xs[(page-1)*n .. min(page*n, |xs|)]`. */
  lemma PageIsWindow<T>(xs: seq<T>, page: int, n: nat)
    requires page >= 1 && n >= 1
    requires (page - 1) * n <= |xs|
    ensures (page - 1) * n + n == page * n
    ensures Page(xs, page, n) == xs[(page - 1) * n..Min(page * n, |xs|)]
  {
  }

  /** A page is empty exactly when its number is beyond the page count; it is never an error. */
  lemma PageEmptyIff<T>(xs: seq<T>, page: int, n: nat)
    requires page >= 1 && n >= 1
    ensures Page(xs, page, n) == [] <==> page > TotalPages(|xs|, n)
  {
    var t := TotalPages(|xs|, n);
    if page > t {
      MulMonotone(t, page - 1, n);
    } else {
      MulMonotone(page - 1, t - 1, n);
      assert (page - 1) * n < |xs|;
      assert (page - 1) * n < page * n;
      assert Page(xs, page, n) == xs[(page - 1) * n..Min(page * n, |xs|)];
      assert |Page(xs, page, n)| > 0;
    }
  }

  /** Every page before the last one is full. */
  lemma PageFullBeforeLast<T>(xs: seq<T>, page: int, n: nat)
    requires n >= 1 && 1 <= page < TotalPages(|xs|, n)
    ensures |Page(xs, page, n)| == n
  {
    MulMonotone(page, TotalPages(|xs|, n) - 1, n);
    assert page * n <= |xs|;
    assert (page - 1) * n + n == page * n;
  }

  /** The pages a viewer can be on: page 1 (even when there are no pages), or one of the pages. */
  predicate InRange(page: int, totalPages: nat) {
    page >= 1 && (page == 1 || page <= totalPages)
  }

  /** Pages 1..k laid end to end. */
  function ConcatPages<T>(xs: seq<T>, n: nat, k: nat): seq<T>
    requires n >= 1
  {
    if k == 0 then [] else ConcatPages(xs, n, k - 1) + Page(xs, k, n)
  }

  lemma {:induction false} ConcatPagesPrefix<T>(xs: seq<T>, n: nat, k: nat)
    requires n >= 1
    ensures k * n >= 0
    ensures ConcatPages(xs, n, k) == xs[..Min(k * n, |xs|)]
  {
    if k > 0 {
      ConcatPagesPrefix(xs, n, k - 1);
      MulMonotone(0, k - 1, n);
      assert (k - 1) * n + n == k * n;
      var lo := Min((k - 1) * n, |xs|);
      var hi := Min(k * n, |xs|);
      assert xs[..hi] == xs[..lo] + xs[lo..hi];
    }
  }

  /** The pages 1..TotalPages partition the list: laid end to end they give it back. */
  lemma PagesPartition<T>(xs: seq<T>, n: nat)
    requires n >= 1
    ensures ConcatPages(xs, n, TotalPages(|xs|, n)) == xs
  {
    ConcatPagesPrefix(xs, n, TotalPages(|xs|, n));
  }

  /** Item `i` sits on page `i / n + 1`, at position `i % n`, and that page exists. */
  lemma ItemOnPage<T>(xs: seq<T>, n: nat, i: nat)
    requires n >= 1 && i < |xs|
    ensures 1 <= i / n + 1 <= TotalPages(|xs|, n)
    ensures i % n < |Page(xs, i / n + 1, n)|
    ensures Page(xs, i / n + 1, n)[i % n] == xs[i]
  {
    var p := i / n + 1;
    assert i == (p - 1) * n + i % n;
    PageIsWindow(xs, p, n);
    var t := TotalPages(|xs|, n);
    if p > t {
      MulMonotone(t, p - 1, n);
    }
  }
}
