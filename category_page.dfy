/**
 * src/pages/Category.tsx: the category listing's own pagination window
 * (`getPageNumbers`), its Previous / Next / page-link handlers, and when the
 * controls are shown.
 */
module CategoryPage {
  import opened Wrappers
  import opened Types
  import opened PageTokens
  import ApiUtils

  const MaxPagesToShow: int := 5

  // ---------------------------------------------------------------------------
  // getPageNumbers

  /**
   * startPage and endPage of the middle window: the neighbours of the current
   * page clipped to 2..totalPages-1, then, when that leaves fewer than three
   * pages, widened to the right in the first half of the range and to the
   * left otherwise. (`currentPage < totalPages / 2` divides exactly, so it is
   * `2 * currentPage < totalPages`.)
   */
  function Window(currentPage: int, totalPages: int): (int, int) {
    var startPage := Max(2, currentPage - 1);
    var endPage := Min(totalPages - 1, currentPage + 1);
    if endPage - startPage < MaxPagesToShow - 3 then
      if 2 * currentPage < totalPages then (startPage, Min(startPage + MaxPagesToShow - 3, totalPages - 1))
      else (Max(endPage - (MaxPagesToShow - 3), 2), endPage)
    else (startPage, endPage)
  }

  /** The token list getPageNumbers builds. */
  function PageNumbers(currentPage: int, totalPages: int): seq<PageToken> {
    if totalPages <= MaxPagesToShow then PageRun(1, totalPages)
    else
      var (startPage, endPage) := Window(currentPage, totalPages);
      Layout(startPage > 2, startPage, endPage, endPage < totalPages - 1, totalPages)
  }

  method GetPageNumbers(currentPage: int, totalPages: int) returns (pageNumbers: seq<PageToken>)
    ensures pageNumbers == PageNumbers(currentPage, totalPages)
  {
    pageNumbers := [];
    if totalPages <= MaxPagesToShow {
      var i := 1;
      while i <= totalPages
        invariant 1 <= i <= Max(totalPages + 1, 1)
        invariant pageNumbers == PageRun(1, i - 1)
      {
        PageRunExtend(1, i - 1);
        pageNumbers := pageNumbers + [Page(i)];
        i := i + 1;
      }
    } else {
      pageNumbers := pageNumbers + [Page(1)];
      var startPage := Max(2, currentPage - 1);
      var endPage := Min(totalPages - 1, currentPage + 1);
      if endPage - startPage < MaxPagesToShow - 3 {
        if 2 * currentPage < totalPages {
          endPage := Min(startPage + MaxPagesToShow - 3, totalPages - 1);
        } else {
          startPage := Max(endPage - (MaxPagesToShow - 3), 2);
        }
      }
      assert (startPage, endPage) == Window(currentPage, totalPages);
      ghost var leading := if startPage > 2 then [EllipsisStart] else [];
      if startPage > 2 {
        pageNumbers := pageNumbers + [EllipsisStart];
      }
      assert pageNumbers == [Page(1)] + leading;
      ghost var head := pageNumbers;
      var i := startPage;
      while i <= endPage
        invariant startPage <= i <= Max(startPage, endPage + 1)
        invariant pageNumbers == head + PageRun(startPage, i - 1)
      {
        PushPage(head, startPage, i);
        pageNumbers := pageNumbers + [Page(i)];
        i := i + 1;
      }
      assert pageNumbers == [Page(1)] + leading + PageRun(startPage, endPage);
      ghost var trailing := if endPage < totalPages - 1 then [EllipsisEnd] else [];
      if endPage < totalPages - 1 {
        pageNumbers := pageNumbers + [EllipsisEnd];
      }
      pageNumbers := pageNumbers + [Page(totalPages)];
      assert pageNumbers == [Page(1)] + leading + PageRun(startPage, endPage) + trailing + [Page(totalPages)];
    }
  }

  /**
   * With more than five pages the adjusted window always holds exactly
   * three pages (maxPagesToShow - 2), lies within 2..totalPages-1, only ever
   * grew during the adjustment, and is the three-page window around the
   * current page pushed inside that range; it contains the current page
   * whenever that is neither the first nor the last.
   */
  lemma WindowShape(currentPage: int, totalPages: int)
    requires totalPages > MaxPagesToShow
    ensures var (startPage, endPage) := Window(currentPage, totalPages);
      && endPage - startPage == MaxPagesToShow - 3
      && 2 <= startPage && endPage <= totalPages - 1
      && startPage <= Max(2, currentPage - 1) && endPage >= Min(totalPages - 1, currentPage + 1)
      && startPage == Max(2, Min(currentPage - 1, totalPages - 3))
      && (2 <= currentPage <= totalPages - 1 ==> startPage <= currentPage <= endPage)
  {
  }

  /** Which side the adjustment widens: the right side in the first half of the range, the left side otherwise. */
  lemma WindowDirection(currentPage: int, totalPages: int)
    requires totalPages > MaxPagesToShow
    ensures var (startPage, endPage) := Window(currentPage, totalPages);
      && (2 * currentPage < totalPages ==> startPage == Max(2, currentPage - 1))
      && (2 * currentPage >= totalPages ==> endPage == Min(totalPages - 1, currentPage + 1))
  {
  }

  /** Up to five pages: all of them, in order, without ellipsis (nothing at all when totalPages <= 0). */
  lemma {:induction false} PageNumbersFewPages(currentPage: int, totalPages: int)
    requires totalPages <= MaxPagesToShow
    ensures var r := PageNumbers(currentPage, totalPages);
      && |r| == (if totalPages <= 0 then 0 else totalPages)
      && (forall k :: 0 <= k < |r| ==> r[k] == Page(k + 1))
      && EllipsisCount(r) == 0
  {
    PageRunCounts(1, totalPages);
  }

  /** The window never repeats or reorders pages, never skips one silently, and each ellipsis hides some. */
  lemma PageNumbersWellOrdered(currentPage: int, totalPages: int)
    ensures WellOrdered(PageNumbers(currentPage, totalPages))
  {
    if totalPages <= MaxPagesToShow {
      PageRunWellOrdered(1, totalPages);
    } else {
      WindowShape(currentPage, totalPages);
      var (s, e) := Window(currentPage, totalPages);
      LayoutWellOrdered(s > 2, s, e, e < totalPages - 1, totalPages);
    }
  }

  /**
   * More than five pages: page 1 first and the last page last, exactly five
   * page numbers (1, the three-page window, the last), 'ellipsis-start'
   * (right after page 1) iff currentPage > 3 and 'ellipsis-end' (right
   * before the last page) iff currentPage < totalPages - 2.
   */
  lemma PageNumbersManyPages(currentPage: int, totalPages: int)
    requires totalPages > MaxPagesToShow
    ensures var r := PageNumbers(currentPage, totalPages);
      var w := Max(2, Min(currentPage - 1, totalPages - 3));
      && r[0] == Page(1) && r[|r| - 1] == Page(totalPages)
      && (forall p :: Page(p) in r <==> p == 1 || p == totalPages || w <= p <= w + 2)
      && (EllipsisStart in r <==> currentPage > 3)
      && (currentPage > 3 ==> r[1] == EllipsisStart)
      && (EllipsisEnd in r <==> currentPage < totalPages - 2)
      && (currentPage < totalPages - 2 ==> r[|r| - 2] == EllipsisEnd)
      && PageCount(r) == MaxPagesToShow
      && MaxPagesToShow <= |r| <= MaxPagesToShow + 2
  {
    WindowShape(currentPage, totalPages);
    var (s, e) := Window(currentPage, totalPages);
    LayoutContents(s > 2, s, e, e < totalPages - 1, totalPages);
  }

  /** Every page shown lies in 1..totalPages, and the current page is shown when it lies there too. */
  lemma PageNumbersShowCurrent(currentPage: int, totalPages: int)
    ensures forall p :: Page(p) in PageNumbers(currentPage, totalPages) ==> 1 <= p <= totalPages
    ensures 1 <= currentPage <= totalPages ==> Page(currentPage) in PageNumbers(currentPage, totalPages)
  {
    var r := PageNumbers(currentPage, totalPages);
    if totalPages <= MaxPagesToShow {
      forall p | Page(p) in r ensures 1 <= p <= totalPages {
        var k :| 0 <= k < |r| && r[k] == Page(p);
      }
      if 1 <= currentPage <= totalPages {
        assert r[currentPage - 1] == Page(currentPage);
      }
    } else {
      PageNumbersManyPages(currentPage, totalPages);
    }
  }

  /**
   * How the two generators differ: with up to five pages they agree; with
   * more, the category window shows every page the api-utils window shows
   * (and possibly more) and places the same ellipses.
   */
  lemma CategoryWindowExtendsLinks(currentPage: int, totalPages: int)
    ensures totalPages <= MaxPagesToShow ==>
      PageNumbers(currentPage, totalPages) == ApiUtils.PaginationLinks(currentPage, totalPages)
    ensures forall p :: Page(p) in ApiUtils.PaginationLinks(currentPage, totalPages) ==>
      Page(p) in PageNumbers(currentPage, totalPages)
    ensures EllipsisStart in ApiUtils.PaginationLinks(currentPage, totalPages) <==>
      EllipsisStart in PageNumbers(currentPage, totalPages)
    ensures EllipsisEnd in ApiUtils.PaginationLinks(currentPage, totalPages) <==>
      EllipsisEnd in PageNumbers(currentPage, totalPages)
  {
    if totalPages > MaxPagesToShow {
      ApiUtils.LinksManyPages(currentPage, totalPages);
      PageNumbersManyPages(currentPage, totalPages);
    }
  }

  /** The windows the category generator gives for ten pages; compare ApiUtils.LinksExamples. */
  lemma PageNumbersExamples()
    ensures PageNumbers(1, 10) == [Page(1), Page(2), Page(3), Page(4), EllipsisEnd, Page(10)]
    ensures PageNumbers(5, 10) == [Page(1), EllipsisStart, Page(4), Page(5), Page(6), EllipsisEnd, Page(10)]
    ensures PageNumbers(10, 10) == [Page(1), EllipsisStart, Page(7), Page(8), Page(9), Page(10)]
  {
    assert PageRun(2, 4) == [Page(2), Page(3), Page(4)];
    assert PageRun(4, 6) == [Page(4), Page(5), Page(6)];
    assert PageRun(7, 9) == [Page(7), Page(8), Page(9)];
  }

  // ---------------------------------------------------------------------------
  // Previous, Next and the page links

  /** A click in the pagination control: Previous, Next, or the link at a position of the token list. */
  datatype PagerClick = PreviousClick | NextClick | LinkClick(position: int)

  /**
   * The page a click leads to: Previous moves back one page only from above
   * page 1, Next moves on one page only below totalPages, and a page link
   * goes to its page (an ellipsis is not a link).
   */
  function AfterClick(currentPage: int, totalPages: int, click: PagerClick): int {
    match click
    case PreviousClick => if currentPage > 1 then currentPage - 1 else currentPage
    case NextClick => if currentPage < totalPages then currentPage + 1 else currentPage
    case LinkClick(i) =>
      var tokens := PageNumbers(currentPage, totalPages);
      if 0 <= i < |tokens| && tokens[i].Page? then tokens[i].n else currentPage
  }

  /** The page reached after a sequence of clicks. */
  function AfterClicks(currentPage: int, totalPages: int, clicks: seq<PagerClick>): int
    decreases |clicks|
  {
    if clicks == [] then currentPage
    else AfterClicks(AfterClick(currentPage, totalPages, clicks[0]), totalPages, clicks[1..])
  }

  /** Previous and Next move by exactly one page or not at all, and never leave 1..totalPages once inside. */
  lemma ClickSteps(currentPage: int, totalPages: int)
    ensures AfterClick(currentPage, totalPages, PreviousClick) == currentPage - 1 <==> currentPage > 1
    ensures AfterClick(currentPage, totalPages, NextClick) == currentPage + 1 <==> currentPage < totalPages
    ensures currentPage <= 1 ==> AfterClick(currentPage, totalPages, PreviousClick) == currentPage
    ensures currentPage >= totalPages ==> AfterClick(currentPage, totalPages, NextClick) == currentPage
  {
  }

  /** Starting inside 1..totalPages, no sequence of clicks leaves it. */
  lemma {:induction false} ClicksStayInRange(currentPage: int, totalPages: int, clicks: seq<PagerClick>)
    requires 1 <= currentPage <= totalPages
    ensures 1 <= AfterClicks(currentPage, totalPages, clicks) <= totalPages
    decreases |clicks|
  {
    if clicks != [] {
      var next := AfterClick(currentPage, totalPages, clicks[0]);
      if clicks[0].LinkClick? {
        PageNumbersShowCurrent(currentPage, totalPages);
        var tokens := PageNumbers(currentPage, totalPages);
        var i := clicks[0].position;
        if 0 <= i < |tokens| && tokens[i].Page? {
          assert Page(tokens[i].n) in tokens;
        }
      }
      ClicksStayInRange(next, totalPages, clicks[1..]);
    }
  }

  /**
   * The `page` search parameter as the category page sees it: the current
   * page, changed by the click handlers, with the total the last query
   * reported.
   */
  class Pager {
    var currentPage: int
    const totalPages: int

    constructor (currentPage: int, totalPages: int)
      ensures this.currentPage == currentPage && this.totalPages == totalPages
    {
      this.currentPage := currentPage;
      this.totalPages := totalPages;
    }

    predicate InRange()
      reads this
    {
      1 <= currentPage <= totalPages
    }

    /** The Previous button's handler. */
    method Previous()
      modifies this
      ensures currentPage == AfterClick(old(currentPage), totalPages, PreviousClick)
      ensures old(InRange()) ==> InRange()
    {
      if currentPage > 1 {
        currentPage := currentPage - 1;
      }
    }

    /** The Next button's handler. */
    method Next()
      modifies this
      ensures currentPage == AfterClick(old(currentPage), totalPages, NextClick)
      ensures old(InRange()) ==> InRange()
    {
      if currentPage < totalPages {
        currentPage := currentPage + 1;
      }
    }

    /** The handler of a page link: `page` is the number of the token clicked. */
    method SelectPage(page: int)
      modifies this
      ensures currentPage == page
    {
      currentPage := page;
    }

    /** Clicking the token at `position` of the rendered control (ellipses do nothing). */
    method Click(position: int)
      modifies this
      ensures currentPage == AfterClick(old(currentPage), totalPages, LinkClick(position))
      ensures old(InRange()) ==> InRange()
    {
      var tokens := GetPageNumbers(currentPage, totalPages);
      PageNumbersShowCurrent(currentPage, totalPages);
      if 0 <= position < |tokens| && tokens[position].Page? {
        assert Page(tokens[position].n) in tokens;
        SelectPage(tokens[position].n);
      }
    }
  }

  // ---------------------------------------------------------------------------
  // When the controls are shown

  /** `postsData?.pagination?.totalPages || 0`: no data means no pages. */
  function TotalPagesOf(postsData: Option<FetchPostsResult>): int {
    match postsData
    case None => 0
    case Some(d) => d.pagination.totalPages
  }

  /**
   * The conditions on the posts under which the pagination control is
   * rendered: the posts have loaded, the list is not empty and there is more
   * than one page. The control is rendered only if they hold; the early
   * returns for a category still loading or not found also hide it.
   */
  function ShowsPagination(postsLoading: bool, postsData: Option<FetchPostsResult>): bool {
    !postsLoading && postsData.Some? && |postsData.value.posts| != 0 && postsData.value.pagination.totalPages > 1
  }

  /** Once shown, the control holds the first and the last page and at least two page links. */
  lemma ShownControlsHavePages(postsLoading: bool, postsData: Option<FetchPostsResult>, currentPage: int)
    requires ShowsPagination(postsLoading, postsData)
    ensures var r := PageNumbers(currentPage, TotalPagesOf(postsData));
      && PageCount(r) >= 2
      && r[0] == Page(1) && r[|r| - 1] == Page(TotalPagesOf(postsData))
  {
    var t := TotalPagesOf(postsData);
    if t <= MaxPagesToShow {
      PageRunCounts(1, t);
    } else {
      PageNumbersManyPages(currentPage, t);
    }
  }
}
