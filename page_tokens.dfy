/**
 * The tokens a pagination control is built from and the shape both window
 * generators give it: page 1, an optional leading ellipsis, a run of middle
 * pages, an optional trailing ellipsis and the last page.
 */
module PageTokens {

  /** A page number, or one of the two ellipsis markers ('ellipsis-start', 'ellipsis-end'). */
  datatype PageToken = Page(n: int) | EllipsisStart | EllipsisEnd

  function Max(a: int, b: int): int { if a >= b then a else b }

  function Min(a: int, b: int): int { if a <= b then a else b }

  /** Number of pages in lo..hi (zero when the range is empty). */
  function RunLength(lo: int, hi: int): nat { if lo <= hi then hi - lo + 1 else 0 }

  /** The page tokens lo, lo+1, ..., hi in order; empty when lo > hi. */
  function PageRun(lo: int, hi: int): seq<PageToken> {
    seq(RunLength(lo, hi), k => Page(lo + k))
  }

  /** One more loop iteration appends the next page to the run. */
  lemma PageRunExtend(lo: int, hi: int)
    requires lo <= hi + 1
    ensures PageRun(lo, hi + 1) == PageRun(lo, hi) + [Page(hi + 1)]
  {
    var a, b := PageRun(lo, hi + 1), PageRun(lo, hi) + [Page(hi + 1)];
    assert |a| == |b|;
    forall k | 0 <= k < |a| ensures a[k] == b[k] { }
  }

  /** Pushing page i after head and the run lo..i-1 gives head and the run lo..i. */
  lemma PushPage(head: seq<PageToken>, lo: int, i: int)
    requires lo <= i
    ensures head + PageRun(lo, i - 1) + [Page(i)] == head + PageRun(lo, i)
  {
    PageRunExtend(lo, i - 1);
    assert head + PageRun(lo, i - 1) + [Page(i)] == head + (PageRun(lo, i - 1) + [Page(i)]);
  }

  /** Page 1, an optional leading ellipsis, the pages lo..hi, an optional trailing ellipsis, page last. */
  function Layout(leading: bool, lo: int, hi: int, trailing: bool, last: int): seq<PageToken> {
    [Page(1)] + (if leading then [EllipsisStart] else []) + PageRun(lo, hi)
      + (if trailing then [EllipsisEnd] else []) + [Page(last)]
  }

  /** Number tokens strictly increase from left to right, so no page is shown twice. */
  predicate Ascending(ts: seq<PageToken>) {
    forall i, j :: 0 <= i < j < |ts| && ts[i].Page? && ts[j].Page? ==> ts[i].n < ts[j].n
  }

  /** Two number tokens that stand next to each other are consecutive pages. */
  predicate Consecutive(ts: seq<PageToken>) {
    forall i :: 0 < i < |ts| && ts[i - 1].Page? && ts[i].Page? ==> ts[i].n == ts[i - 1].n + 1
  }

  /** Every ellipsis stands between two number tokens and hides at least one page. */
  predicate EllipsesHidePages(ts: seq<PageToken>) {
    forall i :: 0 <= i < |ts| && !ts[i].Page? ==>
      0 < i < |ts| - 1 && ts[i - 1].Page? && ts[i + 1].Page? && ts[i - 1].n + 2 <= ts[i + 1].n
  }

  /** The three orderliness properties a rendered pagination control relies on. */
  predicate WellOrdered(ts: seq<PageToken>) {
    Ascending(ts) && Consecutive(ts) && EllipsesHidePages(ts)
  }

  /** Number of number tokens. */
  function PageCount(ts: seq<PageToken>): nat {
    if ts == [] then 0 else (if ts[0].Page? then 1 else 0) + PageCount(ts[1..])
  }

  /** Number of ellipsis tokens. */
  function EllipsisCount(ts: seq<PageToken>): nat {
    if ts == [] then 0 else (if ts[0].Page? then 0 else 1) + EllipsisCount(ts[1..])
  }

  /** Counting number and ellipsis tokens distributes over concatenation. */
  lemma {:induction false} CountsAppend(a: seq<PageToken>, b: seq<PageToken>)
    ensures PageCount(a + b) == PageCount(a) + PageCount(b)
    ensures EllipsisCount(a + b) == EllipsisCount(a) + EllipsisCount(b)
  {
    if a == [] {
      assert a + b == b;
    } else {
      assert (a + b)[1..] == a[1..] + b;
      CountsAppend(a[1..], b);
    }
  }

  /** Every token is either a number or an ellipsis. */
  lemma {:induction false} CountsSum(ts: seq<PageToken>)
    ensures PageCount(ts) + EllipsisCount(ts) == |ts|
  {
    if ts != [] { CountsSum(ts[1..]); }
  }

  /** A run of pages holds only number tokens. */
  lemma {:induction false} PageRunCounts(lo: int, hi: int)
    ensures PageCount(PageRun(lo, hi)) == RunLength(lo, hi)
    ensures EllipsisCount(PageRun(lo, hi)) == 0
    decreases RunLength(lo, hi)
  {
    if lo <= hi {
      assert PageRun(lo, hi)[1..] == PageRun(lo + 1, hi);
      PageRunCounts(lo + 1, hi);
    }
  }

  /** The token at position i of a Layout, in closed form. */
  function LayoutAt(leading: bool, lo: int, hi: int, trailing: bool, last: int, i: int): PageToken {
    var b := if leading then 1 else 0;
    var m := RunLength(lo, hi);
    if i == 0 then Page(1)
    else if leading && i == 1 then EllipsisStart
    else if i < 1 + b + m then Page(lo + i - 1 - b)
    else if trailing && i == 1 + b + m then EllipsisEnd
    else Page(last)
  }

  /** The length of a Layout and each of its tokens. */
  lemma LayoutIndex(leading: bool, lo: int, hi: int, trailing: bool, last: int)
    ensures |Layout(leading, lo, hi, trailing, last)| == LayoutLength(leading, lo, hi, trailing)
    ensures forall i :: 0 <= i < |Layout(leading, lo, hi, trailing, last)| ==>
      Layout(leading, lo, hi, trailing, last)[i] == LayoutAt(leading, lo, hi, trailing, last, i)
  {
  }

  /** Length of a Layout. */
  function LayoutLength(leading: bool, lo: int, hi: int, trailing: bool): nat {
    2 + RunLength(lo, hi) + (if leading then 1 else 0) + (if trailing then 1 else 0)
  }

  /** A sequence given by the closed form of a Layout. */
  predicate IsLayout(ts: seq<PageToken>, leading: bool, lo: int, hi: int, trailing: bool, last: int) {
    && |ts| == LayoutLength(leading, lo, hi, trailing)
    && forall i :: 0 <= i < |ts| ==> ts[i] == LayoutAt(leading, lo, hi, trailing, last, i)
  }

  /** The pages of a closed-form Layout: 1, last and the run lo..hi. */
  lemma ClosedFormPages(ts: seq<PageToken>, leading: bool, lo: int, hi: int, trailing: bool, last: int, p: int)
    requires IsLayout(ts, leading, lo, hi, trailing, last)
    ensures Page(p) in ts <==> p == 1 || p == last || lo <= p <= hi
  {
    var b := if leading then 1 else 0;
    if Page(p) in ts {
      var i :| 0 <= i < |ts| && ts[i] == Page(p);
      assert ts[i] == LayoutAt(leading, lo, hi, trailing, last, i);
    }
    if lo <= p <= hi {
      assert ts[1 + b + (p - lo)] == Page(p);
    }
    if p == last { assert ts[|ts| - 1] == Page(last); }
    if p == 1 { assert ts[0] == Page(1); }
  }

  /** The ellipses of a closed-form Layout and where they stand. */
  lemma ClosedFormEllipses(ts: seq<PageToken>, leading: bool, lo: int, hi: int, trailing: bool, last: int)
    requires IsLayout(ts, leading, lo, hi, trailing, last)
    ensures EllipsisStart in ts <==> leading
    ensures leading ==> ts[1] == EllipsisStart
    ensures EllipsisEnd in ts <==> trailing
    ensures trailing ==> ts[|ts| - 2] == EllipsisEnd
  {
    if EllipsisStart in ts {
      var i :| 0 <= i < |ts| && ts[i] == EllipsisStart;
      assert ts[i] == LayoutAt(leading, lo, hi, trailing, last, i);
    }
    if EllipsisEnd in ts {
      var i :| 0 <= i < |ts| && ts[i] == EllipsisEnd;
      assert ts[i] == LayoutAt(leading, lo, hi, trailing, last, i);
    }
    if leading { assert ts[1] == LayoutAt(leading, lo, hi, trailing, last, 1); }
    if trailing { assert ts[|ts| - 2] == LayoutAt(leading, lo, hi, trailing, last, |ts| - 2); }
  }

  /** Token counts of a Layout: every page of the run plus pages 1 and last, and one token per ellipsis. */
  lemma LayoutCounts(leading: bool, lo: int, hi: int, trailing: bool, last: int)
    ensures PageCount(Layout(leading, lo, hi, trailing, last)) == 2 + RunLength(lo, hi)
    ensures EllipsisCount(Layout(leading, lo, hi, trailing, last)) ==
      (if leading then 1 else 0) + (if trailing then 1 else 0)
  {
    var run := PageRun(lo, hi);
    var lead: seq<PageToken> := if leading then [EllipsisStart] else [];
    var trail: seq<PageToken> := if trailing then [EllipsisEnd] else [];
    CountsAppend([Page(1)], lead);
    CountsAppend([Page(1)] + lead, run);
    CountsAppend([Page(1)] + lead + run, trail);
    CountsAppend([Page(1)] + lead + run + trail, [Page(last)]);
    PageRunCounts(lo, hi);
  }

  /** What a Layout shows: pages 1 and last, the run lo..hi, and the ellipses it was asked for. */
  lemma LayoutContents(leading: bool, lo: int, hi: int, trailing: bool, last: int)
    ensures var ts := Layout(leading, lo, hi, trailing, last);
      && ts[0] == Page(1)
      && ts[|ts| - 1] == Page(last)
      && (forall p :: Page(p) in ts <==> p == 1 || p == last || lo <= p <= hi)
      && (EllipsisStart in ts <==> leading)
      && (leading ==> ts[1] == EllipsisStart)
      && (EllipsisEnd in ts <==> trailing)
      && (trailing ==> ts[|ts| - 2] == EllipsisEnd)
      && |ts| == LayoutLength(leading, lo, hi, trailing)
      && PageCount(ts) == 2 + RunLength(lo, hi)
      && EllipsisCount(ts) == (if leading then 1 else 0) + (if trailing then 1 else 0)
  {
    var ts := Layout(leading, lo, hi, trailing, last);
    LayoutIndex(leading, lo, hi, trailing, last);
    assert IsLayout(ts, leading, lo, hi, trailing, last);
    forall p ensures Page(p) in ts <==> p == 1 || p == last || lo <= p <= hi {
      ClosedFormPages(ts, leading, lo, hi, trailing, last, p);
    }
    ClosedFormEllipses(ts, leading, lo, hi, trailing, last);
    LayoutCounts(leading, lo, hi, trailing, last);
    assert ts[0] == LayoutAt(leading, lo, hi, trailing, last, 0);
    assert ts[|ts| - 1] == LayoutAt(leading, lo, hi, trailing, last, |ts| - 1);
  }

  /**
   * The conditions under which a Layout is well ordered: the run lies strictly
   * between 1 and last, a missing ellipsis leaves no gap and a present one
   * has at least one page to hide.
   */
  predicate LayoutOk(leading: bool, lo: int, hi: int, trailing: bool, last: int) {
    && 1 < last
    && (lo <= hi ==> (if leading then 3 <= lo else lo == 2))
    && (lo <= hi ==> (if trailing then hi <= last - 2 else hi == last - 1))
    && (lo > hi ==> !(leading && trailing) && (if leading || trailing then 3 <= last else last == 2))
  }

  lemma ClosedFormAscending(ts: seq<PageToken>, leading: bool, lo: int, hi: int, trailing: bool, last: int)
    requires LayoutOk(leading, lo, hi, trailing, last)
    requires IsLayout(ts, leading, lo, hi, trailing, last)
    ensures Ascending(ts)
  {
    forall i, j | 0 <= i < j < |ts| && ts[i].Page? && ts[j].Page? ensures ts[i].n < ts[j].n {
      assert ts[i] == LayoutAt(leading, lo, hi, trailing, last, i);
      assert ts[j] == LayoutAt(leading, lo, hi, trailing, last, j);
    }
  }

  lemma ClosedFormConsecutive(ts: seq<PageToken>, leading: bool, lo: int, hi: int, trailing: bool, last: int)
    requires LayoutOk(leading, lo, hi, trailing, last)
    requires IsLayout(ts, leading, lo, hi, trailing, last)
    ensures Consecutive(ts)
  {
    forall i | 0 < i < |ts| && ts[i - 1].Page? && ts[i].Page? ensures ts[i].n == ts[i - 1].n + 1 {
      assert ts[i - 1] == LayoutAt(leading, lo, hi, trailing, last, i - 1);
      assert ts[i] == LayoutAt(leading, lo, hi, trailing, last, i);
    }
  }

  lemma ClosedFormEllipsesHide(ts: seq<PageToken>, leading: bool, lo: int, hi: int, trailing: bool, last: int)
    requires LayoutOk(leading, lo, hi, trailing, last)
    requires IsLayout(ts, leading, lo, hi, trailing, last)
    ensures EllipsesHidePages(ts)
  {
    forall i | 0 <= i < |ts| && !ts[i].Page?
      ensures 0 < i < |ts| - 1 && ts[i - 1].Page? && ts[i + 1].Page? && ts[i - 1].n + 2 <= ts[i + 1].n
    {
      assert ts[i] == LayoutAt(leading, lo, hi, trailing, last, i);
      assert 0 < i < |ts| - 1;
      assert ts[i - 1] == LayoutAt(leading, lo, hi, trailing, last, i - 1);
      assert ts[i + 1] == LayoutAt(leading, lo, hi, trailing, last, i + 1);
    }
  }

  lemma LayoutWellOrdered(leading: bool, lo: int, hi: int, trailing: bool, last: int)
    requires LayoutOk(leading, lo, hi, trailing, last)
    ensures WellOrdered(Layout(leading, lo, hi, trailing, last))
  {
    var ts := Layout(leading, lo, hi, trailing, last);
    LayoutIndex(leading, lo, hi, trailing, last);
    assert IsLayout(ts, leading, lo, hi, trailing, last);
    ClosedFormAscending(ts, leading, lo, hi, trailing, last);
    ClosedFormConsecutive(ts, leading, lo, hi, trailing, last);
    ClosedFormEllipsesHide(ts, leading, lo, hi, trailing, last);
  }

  /** Listing every page 1..t is well ordered and shows no ellipsis. */
  lemma PageRunWellOrdered(lo: int, hi: int)
    ensures WellOrdered(PageRun(lo, hi))
    ensures EllipsisCount(PageRun(lo, hi)) == 0
  {
    PageRunCounts(lo, hi);
  }
}
