/**
 * The report history list: ten reports per page, with Prev and Next buttons
 * when there is more than one page.
 */
module HistoryList {
  import opened Wrappers

  const PAGE_SIZE: nat := 10

  /** Math.ceil(n / PAGE_SIZE): the fewest pages that hold n reports. */
  function TotalPages(n: nat): (t: nat)
    ensures t * PAGE_SIZE >= n
    ensures t > 0 ==> (t - 1) * PAGE_SIZE < n
  {
    (n + PAGE_SIZE - 1) / PAGE_SIZE
  }

  function Min(a: int, b: int): int { if a <= b then a else b }

  /**
   * `reports.slice(start, start + PAGE_SIZE)` with start = page * PAGE_SIZE:
   * slice clamps both ends to the length, so a page past the end is empty.
   */
  function Visible<T>(reports: seq<T>, page: nat): (v: seq<T>)
    ensures |v| <= PAGE_SIZE
    ensures page * PAGE_SIZE <= |reports| ==>
      v == reports[page * PAGE_SIZE..Min(page * PAGE_SIZE + PAGE_SIZE, |reports|)]
    ensures page * PAGE_SIZE >= |reports| ==> v == []
  {
    var start := page * PAGE_SIZE;
    if start >= |reports| then [] else reports[start..Min(start + PAGE_SIZE, |reports|)]
  }

  /** The reports of the first k pages, page after page. */
  function Pages<T>(reports: seq<T>, k: nat): seq<T> {
    if k == 0 then [] else Pages(reports, k - 1) + Visible(reports, k - 1)
  }

  /** Paging through the first k pages shows the reports in order, up to the end of page k. */
  lemma {:induction false} PagesPrefix<T>(reports: seq<T>, k: nat)
    ensures Pages(reports, k) == reports[..Min(k * PAGE_SIZE, |reports|)]
  {
    if k > 0 {
      PagesPrefix(reports, k - 1);
      var a := Min((k - 1) * PAGE_SIZE, |reports|);
      var b := Min(k * PAGE_SIZE, |reports|);
      assert reports[..b] == reports[..a] + reports[a..b];
    }
  }

  /** Every report is on exactly one page: the pages, in order, are the whole list. */
  lemma PagesCoverAll<T>(reports: seq<T>)
    ensures Pages(reports, TotalPages(|reports|)) == reports
  {
    PagesPrefix(reports, TotalPages(|reports|));
    assert reports[..|reports|] == reports;
  }

  /** The pagination bar: the range "first–last of total" and the two buttons' disabled states. */
  datatype Controls = Controls(first: nat, last: nat, total: nat, prevDisabled: bool, nextDisabled: bool)

  /** What the list renders: the empty state, or a page of reports and, beyond one page, the controls. */
  datatype View<T> = EmptyState | Listing(visible: seq<T>, controls: Option<Controls>)

  function Render<T>(reports: seq<T>, page: nat): (view: View<T>)
    ensures view.EmptyState? <==> reports == []
    ensures view.Listing? ==> view.visible == Visible(reports, page)
    ensures view.Listing? ==> (view.controls.Some? <==> TotalPages(|reports|) > 1)
  {
    if reports == [] then EmptyState
    else
      var n := |reports|;
      var totalPages := TotalPages(n);
      var start := page * PAGE_SIZE;
      var visible := Visible(reports, page);
      if totalPages > 1 then
        Listing(visible, Some(Controls(
          first := start + 1,
          last := Min(start + PAGE_SIZE, n),
          total := n,
          prevDisabled := page == 0,
          nextDisabled := page == totalPages - 1)))
      else Listing(visible, None)
  }

  /** On a page that exists, the range text counts exactly the reports shown. */
  lemma RangeCountsVisible<T>(reports: seq<T>, page: nat)
    requires page < TotalPages(|reports|)
    requires Render(reports, page).Listing? && Render(reports, page).controls.Some?
    ensures var c := Render(reports, page).controls.value;
      c.first <= c.last && c.last - c.first + 1 == |Visible(reports, page)|
  {
  }

  /** The page shown, which the Prev and Next buttons move within the pages there are. */
  class Pager {
    var page: nat
    const count: nat

    /** The page is one that exists, or the first when there are none. */
    predicate Valid()
      reads this
    {
      page == 0 || page < TotalPages(count)
    }

    constructor(count: nat)
      ensures this.count == count && page == 0
      ensures Valid()
    {
      this.count := count;
      page := 0;
    }

    predicate PrevDisabled()
      reads this
    {
      page == 0
    }

    predicate NextDisabled()
      reads this
    {
      page == TotalPages(count) - 1
    }

    /** Prev: setPage(p => Math.max(0, p - 1)). */
    method Prev()
      requires Valid()
      modifies this
      ensures page == if old(page) == 0 then 0 else old(page) - 1
      ensures Valid()
      ensures page == old(page) <==> old(PrevDisabled())
    {
      if page > 0 {
        page := page - 1;
      }
    }

    /** Next, shown only when there are at least two pages: setPage(p => Math.min(totalPages - 1, p + 1)). */
    method Next()
      requires Valid() && TotalPages(count) > 1
      modifies this
      ensures page == Min(TotalPages(count) - 1, old(page) + 1)
      ensures Valid()
      ensures page == old(page) <==> old(NextDisabled())
    {
      page := Min(TotalPages(count) - 1, page + 1);
    }
  }
}
