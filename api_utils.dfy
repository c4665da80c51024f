/**
 * src/lib/api-utils.ts: the featured-image choice, the post excerpt and the
 * home page's pagination window.
 */
module ApiUtils {
  import opened Wrappers
  import opened Types
  import opened PageTokens
  import Utils

  // ---------------------------------------------------------------------------
  // getPostImage

  /** The size a caller may ask for; 'large' when none is given. */
  datatype ImageSize = Thumbnail | Medium | Large | Full

  const DefaultImageSize: ImageSize := Large

  /** What a post without a featured image shows. */
  const Placeholder: string := "/placeholder.svg"

  /** `post._embedded?.['wp:featuredmedia']?.[0]`: absent when any link of the chain is missing or the list is empty. */
  function FirstFeaturedMedia(post: Post): Option<FeaturedMedia> {
    match post.embedded
    case None => None
    case Some(e) =>
      match e.featuredMedia
      case None => None
      case Some(ms) => First(ms)
  }

  /** `media.media_details?.sizes`. */
  function SizesOf(media: FeaturedMedia): Option<MediaSizes> {
    match media.mediaDetails
    case None => None
    case Some(d) => d.sizes
  }

  /** The two resized renditions the front-end can pick. */
  datatype Rendition = MediumLargeRendition | LargeRendition

  /** The URL of one rendition of the media, if the CMS produced it. */
  function RenditionUrl(media: FeaturedMedia, rendition: Rendition): Option<string> {
    match SizesOf(media)
    case None => None
    case Some(sizes) =>
      var image := if rendition == LargeRendition then sizes.large else sizes.mediumLarge;
      match image
      case None => None
      case Some(i) => Some(i.sourceUrl)
  }

  /** For each requested size, the renditions worth using, best first; the original is the fallback of all. */
  function Preference(size: ImageSize): seq<Rendition> {
    match size
    case Large => [LargeRendition, MediumLargeRendition]
    case Medium => [MediumLargeRendition]
    case Thumbnail => []
    case Full => []
  }

  /** The first rendition of `prefs` the media has, and its original when it has none of them. */
  function FirstAvailable(media: FeaturedMedia, prefs: seq<Rendition>): string {
    if prefs == [] then media.sourceUrl
    else match RenditionUrl(media, prefs[0])
      case Some(url) => url
      case None => FirstAvailable(media, prefs[1..])
  }

  /** getPostImage: the URL of a post's featured image at the requested size. */
  function GetPostImage(post: Post, size: ImageSize): (r: string)
    ensures FirstFeaturedMedia(post).None? ==> r == Placeholder
    ensures FirstFeaturedMedia(post).Some? ==>
      r == FirstAvailable(FirstFeaturedMedia(post).value, Preference(size))
  {
    assert [LargeRendition, MediumLargeRendition][1..] == [MediumLargeRendition];
    assert [MediumLargeRendition][1..] == [];
    match FirstFeaturedMedia(post)
    case None => Placeholder
    case Some(media) =>
      if size == Full then media.sourceUrl
      else
        var sizes := SizesOf(media);
        if size == Large && sizes.Some? && sizes.value.large.Some? then
          sizes.value.large.value.sourceUrl
        else if (size == Medium || size == Large) && sizes.Some? && sizes.value.mediumLarge.Some? then
          sizes.value.mediumLarge.value.sourceUrl
        else
          assert RenditionUrl(media, MediumLargeRendition).None? ==>
            FirstAvailable(media, [MediumLargeRendition]) == media.sourceUrl;
          media.sourceUrl
  }

  /** The size preferences of getPostImage, one case at a time. */
  lemma PostImagePreferences(post: Post, media: FeaturedMedia)
    requires FirstFeaturedMedia(post) == Some(media)
    ensures GetPostImage(post, Full) == media.sourceUrl
    ensures GetPostImage(post, Thumbnail) == media.sourceUrl
    ensures GetPostImage(post, Medium) ==
      RenditionUrl(media, MediumLargeRendition).GetOr(media.sourceUrl)
    ensures GetPostImage(post, Large) ==
      RenditionUrl(media, LargeRendition).GetOr(
        RenditionUrl(media, MediumLargeRendition).GetOr(media.sourceUrl))
  {
    assert [LargeRendition, MediumLargeRendition][1..] == [MediumLargeRendition];
    assert [MediumLargeRendition][1..] == [];
  }

  /** The URLs a post's image can come from: the placeholder, or the original or a rendition of its first media. */
  lemma PostImageSource(post: Post, size: ImageSize)
    ensures var r := GetPostImage(post, size);
      match FirstFeaturedMedia(post)
      case None => r == Placeholder
      case Some(m) =>
        r == m.sourceUrl || Some(r) == RenditionUrl(m, LargeRendition) || Some(r) == RenditionUrl(m, MediumLargeRendition)
  {
    assert [LargeRendition, MediumLargeRendition][1..] == [MediumLargeRendition];
    assert [MediumLargeRendition][1..] == [];
  }

  // ---------------------------------------------------------------------------
  // getPostExcerpt

  /** getPostExcerpt: the excerpt of the post's rendered excerpt HTML. */
  function GetPostExcerpt(stripHtmlTags: string -> string, post: Post, length: int): (r: string)
    ensures var raw := stripHtmlTags(post.excerpt);
      && (|raw| <= length ==> r == raw)
      && (|raw| > length ==> |r| >= 3 && r[|r| - 3..] == "..."
                             && Utils.IsTrimOf(r[..|r| - 3], raw[..Utils.Clamp(length, |raw|)]))
      && (length >= 0 ==> |r| <= length + 3)
  {
    Utils.GetExcerpt(stripHtmlTags, post.excerpt, length)
  }

  /** getPostExcerpt(post) with the default length of 160. */
  function GetPostExcerptDefault(stripHtmlTags: string -> string, post: Post): (r: string)
    ensures r == Utils.GetExcerptDefault(stripHtmlTags, post.excerpt)
    ensures |r| <= 163
  {
    GetPostExcerpt(stripHtmlTags, post, Utils.DefaultExcerptLength)
  }

  /** getPostImage(post) with the default size 'large': large, then medium_large, then the original. */
  function GetPostImageDefault(post: Post): (r: string)
    ensures r == GetPostImage(post, DefaultImageSize)
    ensures FirstFeaturedMedia(post).None? ==> r == Placeholder
    ensures FirstFeaturedMedia(post).Some? ==>
      r == FirstAvailable(FirstFeaturedMedia(post).value, [LargeRendition, MediumLargeRendition])
  {
    GetPostImage(post, DefaultImageSize)
  }

  // ---------------------------------------------------------------------------
  // generatePaginationLinks

  const MaxVisiblePages: int := 5

  /**
   * The token list generatePaginationLinks builds: every page when there are
   * at most five, otherwise page 1, pages currentPage-1..currentPage+1 clipped
   * to 2..totalPages-1, page totalPages and the ellipses between them.
   */
  function PaginationLinks(currentPage: int, totalPages: int): seq<PageToken> {
    if totalPages <= MaxVisiblePages then PageRun(1, totalPages)
    else Layout(currentPage > 3, Max(2, currentPage - 1), Min(totalPages - 1, currentPage + 1),
                currentPage < totalPages - 2, totalPages)
  }

  method GeneratePaginationLinks(currentPage: int, totalPages: int) returns (pages: seq<PageToken>)
    ensures pages == PaginationLinks(currentPage, totalPages)
  {
    pages := [];
    if totalPages <= MaxVisiblePages {
      var i := 1;
      while i <= totalPages
        invariant 1 <= i <= Max(totalPages + 1, 1)
        invariant pages == PageRun(1, i - 1)
      {
        PageRunExtend(1, i - 1);
        pages := pages + [Page(i)];
        i := i + 1;
      }
    } else {
      pages := pages + [Page(1)];
      ghost var leading := if currentPage > 3 then [EllipsisStart] else [];
      if currentPage > 3 {
        pages := pages + [EllipsisStart];
      }
      assert pages == [Page(1)] + leading;
      var start := Max(2, currentPage - 1);
      var end := Min(totalPages - 1, currentPage + 1);
      ghost var head := pages;
      var i := start;
      while i <= end
        invariant start <= i <= Max(start, end + 1)
        invariant pages == head + PageRun(start, i - 1)
      {
        PushPage(head, start, i);
        pages := pages + [Page(i)];
        i := i + 1;
      }
      ghost var trailing := if currentPage < totalPages - 2 then [EllipsisEnd] else [];
      if currentPage < totalPages - 2 {
        pages := pages + [EllipsisEnd];
      }
      pages := pages + [Page(totalPages)];
      assert pages == [Page(1)] + leading + PageRun(start, end) + trailing + [Page(totalPages)];
    }
  }

  /** Up to five pages: all of them, in order, without ellipsis (nothing at all when totalPages <= 0). */
  lemma {:induction false} LinksFewPages(currentPage: int, totalPages: int)
    requires totalPages <= MaxVisiblePages
    ensures var r := PaginationLinks(currentPage, totalPages);
      && |r| == (if totalPages <= 0 then 0 else totalPages)
      && (forall k :: 0 <= k < |r| ==> r[k] == Page(k + 1))
      && EllipsisCount(r) == 0
  {
    PageRunCounts(1, totalPages);
  }

  /** The window never repeats or reorders pages, never skips one silently, and each ellipsis hides some. */
  lemma LinksWellOrdered(currentPage: int, totalPages: int)
    ensures WellOrdered(PaginationLinks(currentPage, totalPages))
  {
    if totalPages <= MaxVisiblePages {
      PageRunWellOrdered(1, totalPages);
    } else {
      LayoutWellOrdered(currentPage > 3, Max(2, currentPage - 1), Min(totalPages - 1, currentPage + 1),
                        currentPage < totalPages - 2, totalPages);
    }
  }

  /**
   * More than five pages: page 1 first and the last page last, the pages
   * shown are exactly 1, totalPages and the neighbours of the current page,
   * 'ellipsis-start' appears (right after page 1) iff currentPage > 3 and
   * 'ellipsis-end' (right before the last page) iff currentPage < totalPages-2,
   * and there are at most seven tokens.
   */
  lemma LinksManyPages(currentPage: int, totalPages: int)
    requires totalPages > MaxVisiblePages
    ensures var r := PaginationLinks(currentPage, totalPages);
      && r[0] == Page(1) && r[|r| - 1] == Page(totalPages)
      && (forall p :: Page(p) in r <==>
            p == 1 || p == totalPages || (1 < p < totalPages && currentPage - 1 <= p <= currentPage + 1))
      && (EllipsisStart in r <==> currentPage > 3)
      && (currentPage > 3 ==> r[1] == EllipsisStart)
      && (EllipsisEnd in r <==> currentPage < totalPages - 2)
      && (currentPage < totalPages - 2 ==> r[|r| - 2] == EllipsisEnd)
      && |r| <= 7
      && PageCount(r) <= 5
  {
    var c, t := currentPage, totalPages;
    LayoutContents(c > 3, Max(2, c - 1), Min(t - 1, c + 1), c < t - 2, t);
  }

  /** Every page shown lies in 1..totalPages, and the current page is shown when it lies there too. */
  lemma LinksShowCurrent(currentPage: int, totalPages: int)
    ensures forall p :: Page(p) in PaginationLinks(currentPage, totalPages) ==> 1 <= p <= totalPages
    ensures 1 <= currentPage <= totalPages ==> Page(currentPage) in PaginationLinks(currentPage, totalPages)
  {
    var r := PaginationLinks(currentPage, totalPages);
    if totalPages <= MaxVisiblePages {
      forall p | Page(p) in r ensures 1 <= p <= totalPages {
        var k :| 0 <= k < |r| && r[k] == Page(p);
      }
      if 1 <= currentPage <= totalPages {
        assert r[currentPage - 1] == Page(currentPage);
      }
    } else {
      LinksManyPages(currentPage, totalPages);
    }
  }

  /** The windows the api-utils generator gives for ten pages. */
  lemma LinksExamples()
    ensures PaginationLinks(1, 10) == [Page(1), Page(2), EllipsisEnd, Page(10)]
    ensures PaginationLinks(5, 10) == [Page(1), EllipsisStart, Page(4), Page(5), Page(6), EllipsisEnd, Page(10)]
    ensures PaginationLinks(10, 10) == [Page(1), EllipsisStart, Page(9), Page(10)]
  {
    assert PageRun(2, 2) == [Page(2)];
    assert PageRun(4, 6) == [Page(4), Page(5), Page(6)];
    assert PageRun(9, 9) == [Page(9)];
  }
}
