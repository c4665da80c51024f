/**
 * src/services/api.ts: the posts query sent to the WordPress REST API, the
 * records made of its answer, and the copies of getPostImage and getExcerpt
 * kept in that file.
 *
 * The network is a parameter: `transport` maps a URL to what came back, and
 * `encode` stands for encodeURIComponent.
 */
module Api {
  import opened Wrappers
  import opened Types
  import opened Text
  import opened Query
  import ApiUtils
  import Utils
  import CategoryPage

  const ApiUrl: string := "https://seamodapega.com.br/wp-json/wp/v2"

  /** The destructuring defaults of fetchPosts' options. */
  const DefaultPage: int := 1
  const DefaultPerPage: int := 9

  /**
   * The outcome of one request: `Failed` for a network error, a non-2xx status
   * or a body that is not JSON, all of which end in the catch block; otherwise
   * the decoded body and the X-WP-TotalPages and X-WP-Total headers as numbers.
   */
  datatype Response<T> = Failed | Delivered(body: T, totalPages: nat, totalPosts: nat)

  function PageOf(o: FetchPostsOptions): int {
    o.page.GetOr(DefaultPage)
  }

  function PerPageOf(o: FetchPostsOptions): int {
    o.perPage.GetOr(DefaultPerPage)
  }

  /** The category filter; an undefined list filters like an empty one. */
  function CategoryIds(o: FetchPostsOptions): seq<int> {
    o.categories.GetOr([])
  }

  /** The search term; undefined and "" are both falsy and add no filter. */
  function SearchTerm(o: FetchPostsOptions): string {
    o.search.GetOr("")
  }

  function SlugTerm(o: FetchPostsOptions): string {
    o.slug.GetOr("")
  }

  /** `ids.join(',')`. */
  function JoinIds(ids: seq<int>): string {
    Join(IdStrings(ids), ',')
  }

  function IdStrings(ids: seq<int>): seq<string> {
    seq(|ids|, k requires 0 <= k < |ids| => DecimalString(ids[k]))
  }

  // ---------------------------------------------------------------------------
  // The posts query

  /**
   * The parameters of a posts query, in the order they are sent: `_embed`,
   * the page and page size, then each filter that is set, categories before
   * search before slug.
   */
  function PostsQuery(o: FetchPostsOptions, encode: string -> string): seq<Param> {
    HeadParams(o)
    + (if |CategoryIds(o)| > 0 then [Field("categories", JoinIds(CategoryIds(o)))] else [])
    + (if SearchTerm(o) != "" then [Field("search", encode(SearchTerm(o)))] else [])
    + (if SlugTerm(o) != "" then [Field("slug", encode(SlugTerm(o)))] else [])
  }

  /** The URL of a posts query against the API root `base`. */
  function PostsUrl(base: string, o: FetchPostsOptions, encode: string -> string): string {
    base + "/posts?" + RenderQuery(PostsQuery(o, encode))
  }

  /** The URL the `+=` steps of fetchPosts produce is the rendering of PostsQuery. */
  lemma PostsUrlSteps(base: string, o: FetchPostsOptions, encode: string -> string)
    ensures PostsUrl(base, o, encode) ==
      base + "/posts?_embed&page=" + DecimalString(PageOf(o)) + "&per_page=" + DecimalString(PerPageOf(o))
      + CategoriesPart(o) + SearchPart(o, encode) + SlugPart(o, encode)
  {
    var d1, d2 := DecimalString(PageOf(o)), DecimalString(PerPageOf(o));
    var ps := HeadParams(o);
    var head := "_embed&page=" + d1 + "&per_page=" + d2;
    RenderHead(d1, d2);
    var cats := if |CategoryIds(o)| > 0 then [Field("categories", JoinIds(CategoryIds(o)))] else [];
    var search := if SearchTerm(o) != "" then [Field("search", encode(SearchTerm(o)))] else [];
    var slug := if SlugTerm(o) != "" then [Field("slug", encode(SlugTerm(o)))] else [];
    var c, sp, lp := CategoriesPart(o), SearchPart(o, encode), SlugPart(o, encode);
    FilterRender(cats, "categories", "&categories=", c);
    FilterRender(search, "search", "&search=", sp);
    FilterRender(slug, "slug", "&slug=", lp);
    RenderQueryExtend(ps, cats);
    RenderQueryExtend(ps + cats, search);
    RenderQueryExtend(ps + cats + search, slug);
    assert PostsQuery(o, encode) == ps + cats + search + slug;
    var u := base + "/posts?";
    assert PostsUrl(base, o, encode) == u + (head + c + sp + lp);
    ConcatAssoc(u, head + c + sp, lp);
    ConcatAssoc(u, head + c, sp);
    ConcatAssoc(u, head, c);
    HeadAssoc(base, d1, d2);
  }

  lemma ConcatAssoc(a: string, b: string, c: string)
    ensures a + (b + c) == a + b + c
  {
  }

  lemma HeadAssoc(base: string, d1: string, d2: string)
    ensures base + "/posts?" + ("_embed&page=" + d1 + "&per_page=" + d2)
      == base + "/posts?_embed&page=" + d1 + "&per_page=" + d2
  {
    assert "/posts?" + "_embed&page=" == "/posts?_embed&page=";
  }

  /** The rendering of an unset filter is empty, and that of a set one is `&name=` and its value. */
  lemma FilterRender(qs: seq<Param>, name: string, lit: string, part: string)
    requires lit == "&" + name + "="
    requires |qs| <= 1
    requires |qs| == 0 ==> part == ""
    requires |qs| == 1 ==> qs[0].Field? && qs[0].name == name && part == lit + qs[0].value
    ensures part == (if |qs| == 1 then "&" + RenderParam(qs[0]) else "")
  {
  }

  /** The parameters every posts query starts with. */
  function HeadParams(o: FetchPostsOptions): seq<Param> {
    [Flag("_embed"), Field("page", DecimalString(PageOf(o))), Field("per_page", DecimalString(PerPageOf(o)))]
  }

  lemma RenderHead(page: string, perPage: string)
    ensures RenderQuery([Flag("_embed"), Field("page", page), Field("per_page", perPage)])
      == "_embed&page=" + page + "&per_page=" + perPage
  {
    var p0, p1, p2 := Flag("_embed"), Field("page", page), Field("per_page", perPage);
    assert RenderQuery([p0]) == "_embed";
    RenderQueryAppend([p0], p1);
    assert [p0] + [p1] == [p0, p1];
    RenderQueryAppend([p0, p1], p2);
    assert [p0, p1] + [p2] == [p0, p1, p2];
  }

  /** The text each filter adds to the URL: nothing when it is not set. */
  function CategoriesPart(o: FetchPostsOptions): string {
    if |CategoryIds(o)| > 0 then "&categories=" + JoinIds(CategoryIds(o)) else ""
  }

  function SearchPart(o: FetchPostsOptions, encode: string -> string): string {
    if SearchTerm(o) != "" then "&search=" + encode(SearchTerm(o)) else ""
  }

  function SlugPart(o: FetchPostsOptions, encode: string -> string): string {
    if SlugTerm(o) != "" then "&slug=" + encode(SlugTerm(o)) else ""
  }

  /** Appending at most one parameter to a non-empty query. */
  lemma RenderQueryExtend(ps: seq<Param>, qs: seq<Param>)
    requires |ps| > 0 && |qs| <= 1
    ensures RenderQuery(ps + qs) == RenderQuery(ps) + (if |qs| == 1 then "&" + RenderParam(qs[0]) else "")
  {
    if |qs| == 1 {
      assert qs == [qs[0]];
      RenderQueryAppend(ps, qs[0]);
    } else {
      assert ps + qs == ps;
    }
  }

  /** Every posts URL starts with the API root, `/posts?_embed`, the page and the page size. */
  lemma PostsUrlPrefix(base: string, o: FetchPostsOptions, encode: string -> string)
    ensures base + "/posts?_embed&page=" + DecimalString(PageOf(o)) + "&per_page=" + DecimalString(PerPageOf(o))
      <= PostsUrl(base, o, encode)
  {
    PostsUrlSteps(base, o, encode);
  }

  /** The value of the first parameter called `name`, if any. */
  function FieldValue(ps: seq<Param>, name: string): Option<string> {
    if |ps| == 0 then None
    else if ps[0].Field? && ps[0].name == name then Some(ps[0].value)
    else FieldValue(ps[1..], name)
  }

  lemma {:induction false} FieldValueConcat(ps: seq<Param>, qs: seq<Param>, name: string)
    ensures FieldValue(ps + qs, name) ==
      if FieldValue(ps, name).Some? then FieldValue(ps, name) else FieldValue(qs, name)
    decreases |ps|
  {
    if |ps| > 0 {
      assert (ps + qs)[1..] == ps[1..] + qs;
      FieldValueConcat(ps[1..], qs, name);
    } else {
      assert ps + qs == qs;
    }
  }

  /** The ids of a categories value, or None when one of them is not a number. */
  function ParseIds(v: string): Option<seq<int>> {
    ParseAll(Split(v, ','))
  }

  function ParseAll(parts: seq<string>): Option<seq<int>> {
    if |parts| == 0 then Some([])
    else match (ParseDecimal(parts[0]), ParseAll(parts[1..]))
      case (Some(n), Some(ns)) => Some([n] + ns)
      case _ => None
  }

  lemma {:induction false} ParseAllIds(ids: seq<int>)
    ensures ParseAll(IdStrings(ids)) == Some(ids)
  {
    if |ids| > 0 {
      DecimalRoundTrip(ids[0]);
      assert IdStrings(ids)[1..] == IdStrings(ids[1..]);
      ParseAllIds(ids[1..]);
      assert [ids[0]] + ids[1..] == ids;
    }
  }

  /** A non-empty id list is read back from its joined rendering. */
  lemma IdsRoundTrip(ids: seq<int>)
    requires |ids| > 0
    ensures ParseIds(JoinIds(ids)) == Some(ids)
  {
    var ss := IdStrings(ids);
    forall k | 0 <= k < |ss| ensures ',' !in ss[k] {
      assert forall j :: 0 <= j < |ss[k]| ==> ss[k][j] != ',';
    }
    SplitJoin(ss, ',');
    ParseAllIds(ids);
  }

  /** A value made of digits, '-' and ',' holds no '&'. */
  lemma DecimalHasNoAmpersand(n: int)
    ensures '&' !in DecimalString(n)
  {
    var s := DecimalString(n);
    assert forall j :: 0 <= j < |s| ==> s[j] != '&';
  }

  lemma JoinHasNo(parts: seq<string>, sep: char, c: char)
    requires c != sep
    requires forall k :: 0 <= k < |parts| ==> c !in parts[k]
    ensures c !in Join(parts, sep)
    decreases |parts|
  {
    if |parts| > 1 {
      JoinHasNo(parts[1..], sep, c);
    }
  }

  /** A filter's parameter list: empty, or the one field of that name. */
  predicate OptionalField(qs: seq<Param>, name: string) {
    |qs| <= 1 && (|qs| == 1 ==> qs[0].Field? && qs[0].name == name)
  }

  lemma OptionalFieldValue(qs: seq<Param>, name: string, other: string)
    requires OptionalField(qs, name)
    ensures FieldValue(qs, name) == (if |qs| == 1 then Some(qs[0].value) else None)
    ensures other != name ==> FieldValue(qs, other) == None
  {
    if |qs| == 1 {
      assert qs[1..] == [];
    }
  }

  lemma HeadFieldValues(o: FetchPostsOptions, name: string)
    ensures FieldValue(HeadParams(o), name) ==
      if name == "page" then Some(DecimalString(PageOf(o)))
      else if name == "per_page" then Some(DecimalString(PerPageOf(o)))
      else None
  {
    var ps := HeadParams(o);
    var d1, d2 := DecimalString(PageOf(o)), DecimalString(PerPageOf(o));
    assert ps[1..] == [Field("page", d1), Field("per_page", d2)];
    assert ps[1..][1..] == [Field("per_page", d2)];
    assert ps[1..][1..][1..] == [];
    assert FieldValue(ps, name) == FieldValue(ps[1..], name);
    assert FieldValue(ps[1..], name) == if name == "page" then Some(d1) else FieldValue(ps[1..][1..], name);
    assert FieldValue(ps[1..][1..], name) == if name == "per_page" then Some(d2) else None;
  }

  /** The four groups of a posts query, and where each name is looked up. */
  lemma {:induction false} PostsQueryFieldValue(o: FetchPostsOptions, encode: string -> string, name: string)
    ensures FieldValue(PostsQuery(o, encode), name) ==
      if name == "page" || name == "per_page" then FieldValue(HeadParams(o), name)
      else if name == "categories" then (if |CategoryIds(o)| > 0 then Some(JoinIds(CategoryIds(o))) else None)
      else if name == "search" then (if SearchTerm(o) != "" then Some(encode(SearchTerm(o))) else None)
      else if name == "slug" then (if SlugTerm(o) != "" then Some(encode(SlugTerm(o))) else None)
      else None
  {
    var head := HeadParams(o);
    var cats := if |CategoryIds(o)| > 0 then [Field("categories", JoinIds(CategoryIds(o)))] else [];
    var search := if SearchTerm(o) != "" then [Field("search", encode(SearchTerm(o)))] else [];
    var slug := if SlugTerm(o) != "" then [Field("slug", encode(SlugTerm(o)))] else [];
    assert PostsQuery(o, encode) == head + cats + search + slug;
    HeadFieldValues(o, name);
    OptionalFieldValue(cats, "categories", name);
    OptionalFieldValue(search, "search", name);
    OptionalFieldValue(slug, "slug", name);
    FieldValueConcat(head + cats + search, slug, name);
    FieldValueConcat(head + cats, search, name);
    FieldValueConcat(head, cats, name);
  }

  /** No parameter of a posts query needs escaping, provided the encoder leaves no '&' in the search and slug. */
  lemma PostsQueryPlain(o: FetchPostsOptions, encode: string -> string)
    requires '&' !in encode(SearchTerm(o)) && '&' !in encode(SlugTerm(o))
    ensures AllPlain(PostsQuery(o, encode))
  {
    var head := HeadParams(o);
    HeadPlain(o);
    var cats := if |CategoryIds(o)| > 0 then [Field("categories", JoinIds(CategoryIds(o)))] else [];
    var ss := IdStrings(CategoryIds(o));
    forall k | 0 <= k < |ss| ensures '&' !in ss[k] {
      DecimalHasNoAmpersand(CategoryIds(o)[k]);
    }
    JoinHasNo(ss, ',', '&');
    FilterPlain(cats, "categories", JoinIds(CategoryIds(o)));
    var search := if SearchTerm(o) != "" then [Field("search", encode(SearchTerm(o)))] else [];
    FilterPlain(search, "search", encode(SearchTerm(o)));
    var slug := if SlugTerm(o) != "" then [Field("slug", encode(SlugTerm(o)))] else [];
    FilterPlain(slug, "slug", encode(SlugTerm(o)));
    AllPlainConcat(head, cats);
    AllPlainConcat(head + cats, search);
    AllPlainConcat(head + cats + search, slug);
  }

  lemma HeadPlain(o: FetchPostsOptions)
    ensures AllPlain(HeadParams(o))
  {
    DecimalHasNoAmpersand(PageOf(o));
    DecimalHasNoAmpersand(PerPageOf(o));
    var head := HeadParams(o);
    assert Plain(head[0]) && Plain(head[1]) && Plain(head[2]);
  }

  lemma FilterPlain(qs: seq<Param>, name: string, value: string)
    requires qs == [] || qs == [Field(name, value)]
    requires '&' !in name && '=' !in name && '&' !in value
    ensures AllPlain(qs)
  {
  }

  /**
   * The query of a posts URL reads back as the options it was built from:
   * the page and page size (after the defaults), the category ids exactly
   * when the list is non-empty, and the encoded search and slug exactly when
   * they are non-empty, provided the encoder leaves no '&' in them.
   */
  lemma PostsQueryReadsBack(o: FetchPostsOptions, encode: string -> string)
    requires '&' !in encode(SearchTerm(o)) && '&' !in encode(SlugTerm(o))
    ensures var ps := ParseQuery(RenderQuery(PostsQuery(o, encode)));
      && ps == PostsQuery(o, encode)
      && ps[0] == Flag("_embed")
      && FieldValue(ps, "page").Some? && ParseDecimal(FieldValue(ps, "page").value) == Some(PageOf(o))
      && FieldValue(ps, "per_page").Some? && ParseDecimal(FieldValue(ps, "per_page").value) == Some(PerPageOf(o))
      && (FieldValue(ps, "categories").Some? <==> |CategoryIds(o)| > 0)
      && (|CategoryIds(o)| > 0 ==> ParseIds(FieldValue(ps, "categories").value) == Some(CategoryIds(o)))
      && FieldValue(ps, "search") == (if SearchTerm(o) != "" then Some(encode(SearchTerm(o))) else None)
      && FieldValue(ps, "slug") == (if SlugTerm(o) != "" then Some(encode(SlugTerm(o))) else None)
  {
    PostsQueryPlain(o, encode);
    QueryRoundTrip(PostsQuery(o, encode));
    DecimalRoundTrip(PageOf(o));
    DecimalRoundTrip(PerPageOf(o));
    if |CategoryIds(o)| > 0 {
      IdsRoundTrip(CategoryIds(o));
    }
    PostsQueryFieldValue(o, encode, "page");
    HeadFieldValues(o, "page");
    PostsQueryFieldValue(o, encode, "per_page");
    HeadFieldValues(o, "per_page");
    PostsQueryFieldValue(o, encode, "categories");
    PostsQueryFieldValue(o, encode, "search");
    PostsQueryFieldValue(o, encode, "slug");
  }

  /** What fetchPosts returns for the page it asked for and what came back. */
  function PostsResult(page: int, response: Response<seq<Post>>): (r: FetchPostsResult)
    ensures r.pagination.currentPage == page
    ensures response.Failed? ==> r.posts == [] && r.pagination.totalPages == 0 && r.pagination.totalPosts == 0
    ensures response.Delivered? ==>
      r.posts == response.body
      && r.pagination.totalPages == response.totalPages && r.pagination.totalPosts == response.totalPosts
  {
    match response
    case Failed => FetchPostsResult([], PaginationInfo(0, 0, page))
    case Delivered(posts, totalPages, totalPosts) => FetchPostsResult(posts, PaginationInfo(totalPages, totalPosts, page))
  }

  /** A failed request cannot be told apart from an empty first page that reports no pages. */
  lemma FailureLooksEmpty(page: int)
    ensures PostsResult(page, Failed) == PostsResult(page, Delivered([], 0, 0))
  {
  }

  /** Category.tsx hides its page links after a failed request. */
  lemma FailedFetchHidesPagination(page: int)
    ensures !CategoryPage.ShowsPagination(false, Some(PostsResult(page, Failed)))
    ensures CategoryPage.TotalPagesOf(Some(PostsResult(page, Failed))) == 0
  {
  }

  /** fetchPosts: the `+=` construction of the URL, one request, and the result records. */
  method FetchPosts(options: FetchPostsOptions, encode: string -> string, transport: string -> Response<seq<Post>>)
    returns (result: FetchPostsResult)
    ensures result == PostsResult(PageOf(options), transport(PostsUrl(ApiUrl, options, encode)))
  {
    var page := options.page.GetOr(DefaultPage);
    var perPage := options.perPage.GetOr(DefaultPerPage);
    var url := ApiUrl + "/posts?_embed&page=" + DecimalString(page) + "&per_page=" + DecimalString(perPage);
    ghost var u0 := url;
    if options.categories.Some? && |options.categories.value| > 0 {
      ConcatAssoc(url, "&categories=", JoinIds(options.categories.value));
      url := url + "&categories=" + JoinIds(options.categories.value);
    }
    assert url == u0 + CategoriesPart(options);
    ghost var u1 := url;
    if options.search.Some? && options.search.value != "" {
      ConcatAssoc(url, "&search=", encode(options.search.value));
      url := url + "&search=" + encode(options.search.value);
    }
    assert url == u1 + SearchPart(options, encode);
    ghost var u2 := url;
    if options.slug.Some? && options.slug.value != "" {
      ConcatAssoc(url, "&slug=", encode(options.slug.value));
      url := url + "&slug=" + encode(options.slug.value);
    }
    assert url == u2 + SlugPart(options, encode);
    PostsUrlSteps(ApiUrl, options, encode);
    var response := transport(url);
    match response {
      case Failed =>
        result := FetchPostsResult([], PaginationInfo(0, 0, page));
      case Delivered(posts, totalPages, totalPosts) =>
        result := FetchPostsResult(posts, PaginationInfo(totalPages, totalPosts, page));
    }
  }

  /** The options fetchSinglePost passes on. */
  function SinglePostOptions(slug: string): FetchPostsOptions {
    FetchPostsOptions(None, Some(1), None, None, Some(slug))
  }

  /**
   * The query of fetchSinglePost: the first page, one post per page, and the
   * slug filter exactly when the slug is not empty.
   */
  lemma SinglePostQuery(slug: string, encode: string -> string)
    ensures PostsQuery(SinglePostOptions(slug), encode) ==
      [Flag("_embed"), Field("page", "1"), Field("per_page", "1")]
      + (if slug != "" then [Field("slug", encode(slug))] else [])
  {
    assert DecimalString(1) == "1";
  }

  /** An empty slug sends no slug filter, so fetchSinglePost("") asks for the first post of the unfiltered listing. */
  lemma SinglePostEmptySlug(encode: string -> string)
    ensures PostsUrl(ApiUrl, SinglePostOptions(""), encode)
      == PostsUrl(ApiUrl, FetchPostsOptions(None, Some(1), None, None, None), encode)
    ensures RenderQuery(PostsQuery(SinglePostOptions(""), encode)) == "_embed&page=1&per_page=1"
  {
    var o1, o2 := SinglePostOptions(""), FetchPostsOptions(None, Some(1), None, None, None);
    assert DecimalString(1) == "1";
    var head := [Flag("_embed"), Field("page", "1"), Field("per_page", "1")];
    assert PostsQuery(o1, encode) == HeadParams(o1) + [] + [] + [] == head;
    assert PostsQuery(o2, encode) == HeadParams(o2) + [] + [] + [] == head;
    RenderHead("1", "1");
    assert "_embed&page=" + "1" + "&per_page=" + "1" == "_embed&page=1&per_page=1";
  }

  /** fetchSinglePost: the first post of that query, or None when it failed or found nothing. */
  method FetchSinglePost(slug: string, encode: string -> string, transport: string -> Response<seq<Post>>)
    returns (post: Option<Post>)
    ensures var response := transport(PostsUrl(ApiUrl, SinglePostOptions(slug), encode));
      && (post.Some? <==> response.Delivered? && |response.body| > 0)
      && (post.Some? ==> post.value == response.body[0])
  {
    var result := FetchPosts(SinglePostOptions(slug), encode, transport);
    post := First(result.posts);
  }

  /** The URL of fetchCategoryBySlug; the slug filter is sent even when empty. */
  function CategoryBySlugUrl(base: string, slug: string, encode: string -> string): string {
    base + "/categories?" + RenderQuery([Field("slug", encode(slug))])
  }

  /** fetchCategoryBySlug: the first category the query matched, or None when it failed or matched none. */
  method FetchCategoryBySlug(slug: string, encode: string -> string, transport: string -> Response<seq<Category>>)
    returns (category: Option<Category>)
    ensures var response := transport(CategoryBySlugUrl(ApiUrl, slug, encode));
      && (category.Some? <==> response.Delivered? && |response.body| > 0)
      && (category.Some? ==> category.value == response.body[0])
  {
    var url := ApiUrl + "/categories?slug=" + encode(slug);
    assert url == CategoryBySlugUrl(ApiUrl, slug, encode);
    var response := transport(url);
    match response {
      case Failed =>
        category := None;
      case Delivered(categories, _, _) =>
        category := if |categories| > 0 then Some(categories[0]) else None;
    }
  }

  // ---------------------------------------------------------------------------
  // The copies of getPostImage and getExcerpt

  /** getPostImage as written again in this file; it chooses the same URL as the one in api-utils. */
  function GetPostImage(post: Post, size: ApiUtils.ImageSize): (r: string)
    ensures r == ApiUtils.GetPostImage(post, size)
  {
    match ApiUtils.FirstFeaturedMedia(post)
    case None => "/placeholder.svg"
    case Some(media) =>
      if size == ApiUtils.Full then media.sourceUrl
      else
        var sizes := ApiUtils.SizesOf(media);
        if size == ApiUtils.Large && sizes.Some? && sizes.value.large.Some? then
          sizes.value.large.value.sourceUrl
        else if (size == ApiUtils.Medium || size == ApiUtils.Large) && sizes.Some? && sizes.value.mediumLarge.Some? then
          sizes.value.mediumLarge.value.sourceUrl
        else media.sourceUrl
  }

  /** getExcerpt as written in this file, on the post's excerpt; it agrees with getPostExcerpt of api-utils. */
  function GetExcerpt(stripHtmlTags: string -> string, post: Post, length: int): (r: string)
    ensures r == ApiUtils.GetPostExcerpt(stripHtmlTags, post, length)
  {
    var rawExcerpt := stripHtmlTags(post.excerpt);
    if |rawExcerpt| <= length then rawExcerpt
    else Utils.Trim(Utils.Substring(rawExcerpt, 0, length)) + "..."
  }

  /** getExcerpt(post) with this file's own default length of 160, the one every caller relies on. */
  function GetExcerptDefault(stripHtmlTags: string -> string, post: Post): (r: string)
    ensures r == ApiUtils.GetPostExcerptDefault(stripHtmlTags, post)
    ensures |r| <= 163
  {
    GetExcerpt(stripHtmlTags, post, 160)
  }
}
