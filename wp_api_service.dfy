/**
 * src/services/wp-api-service.ts: the same posts query as src/services/api.ts,
 * sent from a service object to the API root it was constructed with.
 */
module WpApiService {
  import opened Wrappers
  import opened Types
  import opened Text
  import Api

  /** The API root a service gets when it is constructed without one. */
  const DefaultApiUrl: string := "https://seamodapega.com.br/wp-json/wp/v2"

  class WordPressApiService {
    /** The private API_URL: set by the constructor and never assigned afterwards. */
    const apiUrl: string

    constructor (apiUrl: string)
      ensures this.apiUrl == apiUrl
    {
      this.apiUrl := apiUrl;
    }

    /** `new WordPressApiService()`, as the exported singleton is built. */
    constructor Default()
      ensures apiUrl == DefaultApiUrl == Api.ApiUrl
    {
      apiUrl := DefaultApiUrl;
    }

    /** fetchPosts: the posts query against this service's root, one request, and the result records. */
    method FetchPosts(options: FetchPostsOptions, encode: string -> string, transport: string -> Api.Response<seq<Post>>)
      returns (result: FetchPostsResult)
      ensures result == Api.PostsResult(Api.PageOf(options), transport(Api.PostsUrl(apiUrl, options, encode)))
    {
      var page := options.page.GetOr(1);
      var perPage := options.perPage.GetOr(9);
      var url := apiUrl + "/posts?_embed&page=" + DecimalString(page) + "&per_page=" + DecimalString(perPage);
      ghost var u0 := url;
      if options.categories.Some? && |options.categories.value| > 0 {
        Api.ConcatAssoc(url, "&categories=", Api.JoinIds(options.categories.value));
        url := url + "&categories=" + Api.JoinIds(options.categories.value);
      }
      assert url == u0 + Api.CategoriesPart(options);
      ghost var u1 := url;
      if options.search.Some? && options.search.value != "" {
        Api.ConcatAssoc(url, "&search=", encode(options.search.value));
        url := url + "&search=" + encode(options.search.value);
      }
      assert url == u1 + Api.SearchPart(options, encode);
      ghost var u2 := url;
      if options.slug.Some? && options.slug.value != "" {
        Api.ConcatAssoc(url, "&slug=", encode(options.slug.value));
        url := url + "&slug=" + encode(options.slug.value);
      }
      assert url == u2 + Api.SlugPart(options, encode);
      Api.PostsUrlSteps(apiUrl, options, encode);
      var response := transport(url);
      match response {
        case Failed =>
          result := FetchPostsResult([], PaginationInfo(0, 0, page));
        case Delivered(posts, totalPages, totalPosts) =>
          result := FetchPostsResult(posts, PaginationInfo(totalPages, totalPosts, page));
      }
    }

    /** fetchSinglePost: the first post of a one-post query for the slug, or None. */
    method FetchSinglePost(slug: string, encode: string -> string, transport: string -> Api.Response<seq<Post>>)
      returns (post: Option<Post>)
      ensures var response := transport(Api.PostsUrl(apiUrl, Api.SinglePostOptions(slug), encode));
        && (post.Some? <==> response.Delivered? && |response.body| > 0)
        && (post.Some? ==> post.value == response.body[0])
    {
      var result := FetchPosts(Api.SinglePostOptions(slug), encode, transport);
      post := First(result.posts);
    }
  }

  /** Whatever the root, the query part of the URL is the same as that of src/services/api.ts. */
  lemma SameQueryAnyRoot(base: string, options: FetchPostsOptions, encode: string -> string)
    ensures Api.PostsUrl(base, options, encode)[|base|..] == Api.PostsUrl(Api.ApiUrl, options, encode)[|Api.ApiUrl|..]
  {
  }
}
