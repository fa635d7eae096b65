/**
  The pagination of the list screens: `Math.ceil(length / perPage)` pages, and page `p`
  is `rows.slice(p * perPage - perPage, p * perPage)`.
 */
module Paging {

  function Min(a: int, b: int): int {
    if a <= b then a else b
  }

  /** `Math.ceil(count / perPage)`. */
  function TotalPages(count: nat, perPage: nat): nat
    requires perPage > 0
  {
    (count + perPage - 1) / perPage
  }

  /** `TotalPages` is the fewest pages of `perPage` rows that hold `count` rows. */
  lemma TotalPagesIsCeiling(count: nat, perPage: nat)
    requires perPage > 0
    ensures count <= TotalPages(count, perPage) * perPage
    ensures TotalPages(count, perPage) > 0 ==> (TotalPages(count, perPage) - 1) * perPage < count
    ensures TotalPages(count, perPage) == 0 <==> count == 0
  {
  }

  /** `s.slice(start, end)` for non-negative bounds: both are clamped to the length. */
  function Slice<T>(s: seq<T>, start: nat, end: nat): (r: seq<T>)
    ensures |r| <= |s|
  {
    var lo := Min(start, |s|);
    var hi := Min(end, |s|);
    if lo <= hi then s[lo..hi] else []
  }

  /** The rows shown on page `page` (pages are numbered from 1). */
  function Page<T>(s: seq<T>, page: nat, perPage: nat): (r: seq<T>)
    requires page >= 1 && perPage > 0
    ensures |r| <= perPage
  {
    var last := page * perPage;
    assert last >= perPage;
    Slice(s, last - perPage, last)
  }

  /** A page in `1..TotalPages` holds the next `perPage` rows, or the remaining ones, and is never empty. */
  lemma PageInRange<T>(s: seq<T>, page: nat, perPage: nat)
    requires perPage > 0 && 1 <= page <= TotalPages(|s|, perPage)
    ensures (page - 1) * perPage < |s|
    ensures Page(s, page, perPage) == s[(page - 1) * perPage..Min(page * perPage, |s|)]
    ensures Page(s, page, perPage) != []
  {
    var n := TotalPages(|s|, perPage);
    var lo, hi := (page - 1) * perPage, page * perPage;
    OnePageMore(page, perPage);
    MultiplyMonotone(page - 1, n - 1, perPage);
    assert lo < |s|;
    assert Page(s, page, perPage) == Slice(s, lo, hi);
  }

  /** A page in `1..TotalPages` is never empty. */
  lemma PageNonEmpty<T>(s: seq<T>, page: nat, perPage: nat)
    requires perPage > 0 && 1 <= page <= TotalPages(|s|, perPage)
    ensures Page(s, page, perPage) != []
  {
    PageInRange(s, page, perPage);
  }

  lemma OnePageMore(page: nat, perPage: nat)
    requires page >= 1
    ensures page * perPage == (page - 1) * perPage + perPage
  {
  }

  /** A page past the last one is empty. */
  lemma PageBeyondLast<T>(s: seq<T>, page: nat, perPage: nat)
    requires perPage > 0 && page > TotalPages(|s|, perPage)
    ensures Page(s, page, perPage) == []
  {
    var n := TotalPages(|s|, perPage);
    MultiplyMonotone(n, page - 1, perPage);
    OnePageMore(page, perPage);
  }

  lemma MultiplyMonotone(a: nat, b: nat, k: nat)
    requires a <= b
    ensures a * k <= b * k
  {
    assert b * k == a * k + (b - a) * k;
  }

  /** Pages `1..count` laid end to end. */
  function Pages<T>(s: seq<T>, perPage: nat, count: nat): seq<T>
    requires perPage > 0
  {
    if count == 0 then [] else Pages(s, perPage, count - 1) + Page(s, count, perPage)
  }

  /** The first `count` pages are the first `count * perPage` rows. */
  lemma {:induction false} PagesArePrefix<T>(s: seq<T>, perPage: nat, count: nat)
    requires perPage > 0
    ensures Pages(s, perPage, count) == s[..Min(count * perPage, |s|)]
  {
    if count > 0 {
      PagesArePrefix(s, perPage, count - 1);
      var lo := (count - 1) * perPage;
      var hi := count * perPage;
      OnePageMore(count, perPage);
      var a := Min(lo, |s|);
      var b := Min(hi, |s|);
      assert Page(s, count, perPage) == s[a..b];
      assert s[..a] + s[a..b] == s[..b];
    }
  }

  /** Concatenating pages `1..TotalPages` gives back every row exactly once, in order. */
  lemma PagesReassemble<T>(s: seq<T>, perPage: nat)
    requires perPage > 0
    ensures Pages(s, perPage, TotalPages(|s|, perPage)) == s
  {
    PagesArePrefix(s, perPage, TotalPages(|s|, perPage));
  }

  /** Worked case: 21 rows at 8 per page make 3 pages, and page 4 is past the end. */
  lemma TwentyOneRowsByEight()
    ensures TotalPages(21, 8) == 3
    ensures !(1 <= 4 <= TotalPages(21, 8))
  {
  }
}
