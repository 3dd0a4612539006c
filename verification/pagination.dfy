/**
 * The 4-per-page pagination that the announcement list and the module list
 * both use: `Math.max(1, Math.ceil(n / perPage))` pages, and page p shows
 * `list.slice((p - 1) * perPage, p * perPage)`.
 */
module Pagination {

  import opened Common

  const PER_PAGE: nat := 4

  /** `Math.max(1, Math.ceil(n / PER_PAGE))`. */
  function TotalPages(n: nat): (pages: nat)
    ensures pages >= 1
    ensures n <= pages * PER_PAGE
    ensures n > 0 ==> (pages - 1) * PER_PAGE < n
    ensures pages == 1 <==> n <= PER_PAGE
  {
    if n == 0 then 1 else (n + PER_PAGE - 1) / PER_PAGE
  }

  /** Index of the first item on page p, `(p - 1) * PER_PAGE`. */
  function PageStart(page: nat): nat
    requires page >= 1
  {
    (page - 1) * PER_PAGE
  }

  /**
   * `list.slice(start, start + PER_PAGE)`; JavaScript's slice clamps both
   * ends to the length, so a page past the end is empty.
   */
  function PageItems<T>(list: seq<T>, page: nat): (items: seq<T>)
    requires page >= 1
    ensures |items| <= PER_PAGE
    ensures forall k :: 0 <= k < |items| ==>
      PageStart(page) + k < |list| && items[k] == list[PageStart(page) + k]
    ensures |items| == Min(PER_PAGE, Max(0, |list| - PageStart(page)))
  {
    var lo := if PageStart(page) <= |list| then PageStart(page) else |list|;
    var hi := if PageStart(page) + PER_PAGE <= |list| then PageStart(page) + PER_PAGE else |list|;
    list[lo..hi]
  }

  /** The page an item at index i is shown on. */
  function PageOf(i: nat): (page: nat)
    ensures page >= 1
  {
    i / PER_PAGE + 1
  }

  /**
   * Every item of the list is on exactly one page, the page PageOf gives,
   * and that page is one of the TotalPages pages.
   */
  lemma ItemOnExactlyOnePage<T>(list: seq<T>, i: nat, page: nat)
    requires i < |list| && page >= 1
    ensures PageOf(i) <= TotalPages(|list|)
    ensures (PageStart(page) <= i < PageStart(page) + PER_PAGE) <==> page == PageOf(i)
    ensures PageItems(list, PageOf(i))[i - PageStart(PageOf(i))] == list[i]
  {
    var p := PageOf(i);
    assert PageStart(p) <= i < PageStart(p) + PER_PAGE;
  }

  /** The pages from `from` up to and including `to`, one after the other. */
  function Concat<T>(list: seq<T>, from: nat, to: nat): seq<T>
    requires from >= 1
    decreases if from > to then 0 else to - from + 1
  {
    if from > to then [] else PageItems(list, from) + Concat(list, from + 1, to)
  }

  /**
   * Reading the pages 1..TotalPages one after the other gives back the whole
   * list, in order.
   */
  lemma PagesReassemble<T>(list: seq<T>)
    ensures Concat(list, 1, TotalPages(|list|)) == list
  {
    ConcatFrom(list, 1);
  }

  lemma {:induction false} ConcatFrom<T>(list: seq<T>, from: nat)
    requires from >= 1
    requires PageStart(from) <= |list| || from == TotalPages(|list|) + 1
    ensures Concat(list, from, TotalPages(|list|)) ==
      (if PageStart(from) <= |list| then list[PageStart(from)..] else [])
    decreases TotalPages(|list|) + 1 - from
  {
    var pages := TotalPages(|list|);
    if from > pages {
      assert PageStart(from) >= |list|;
    } else {
      var start := PageStart(from);
      if start + PER_PAGE <= |list| {
        if from + 1 <= pages {
          ConcatFrom(list, from + 1);
          assert list[start..] == list[start..start + PER_PAGE] + list[start + PER_PAGE..];
        } else {
          assert start + PER_PAGE == |list|;
        }
      } else {
        assert from + 1 > pages;
        ConcatFrom(list, from + 1);
      }
    }
  }

  /**
   * A page within range of a non-empty list shows at least one item, so the
   * empty-state card appears on an in-range page exactly when the list is
   * empty.
   */
  lemma InRangePageNonEmpty<T>(list: seq<T>, page: nat)
    requires 1 <= page <= TotalPages(|list|)
    ensures |PageItems(list, page)| == 0 <==> |list| == 0
  {
    if |list| > 0 {
      assert PageStart(page) < |list|;
    }
  }
}
