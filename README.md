# A Dafny model of the blog front-end's core logic

The front-end lists WordPress posts, shows them one by one, and pages
through categories. Most of it is rendering. The logic underneath is small
and deterministic, and this project models it:

- **Two pagination windows.** `generatePaginationLinks` in
  `src/lib/api-utils.ts` and the `getPageNumbers` closure of
  `src/pages/Category.tsx` both turn `(currentPage, totalPages)` into page
  numbers and `'ellipsis-start'` / `'ellipsis-end'` markers. They give
  different windows. Both are `while` loops that grow a list, proved equal to
  a declarative layout, `PageTokens.Layout`. Ordering, bounds, ellipsis
  placement and the size of the window are proved about that layout.
- **The category page's Previous / Next / page-link handlers**, as a `Pager`
  class whose `currentPage` they change, and the rule for when the controls
  are rendered.
- **The image carousel of `src/components/ImageModal.tsx`**, as a class
  holding the props and `currentIndex`. It covers wrap-around navigation,
  the key dispatcher, the reset when `open` or `initialIndex` changes, and
  what is rendered.
- **`getPostImage` and the excerpt** (`getExcerpt` / `getPostExcerpt`), as
  pure functions over option-typed records. `trim` and `substring` follow
  their ECMAScript definitions. Copies of both functions live in
  `src/services/api.ts`; each copy is proved to agree with the library
  version.
- **The posts query of `fetchPosts`** in `src/services/api.ts` and in
  `WordPressApiService`. The query is a list of parameters (`Api.PostsQuery`).
  The `+=` construction of the URL in both files is proved to render exactly
  that list. The query string parses back to its parameters: page and
  per_page as requested or defaulted, the category ids when the list is
  non-empty, and the search and slug in their encoded form when non-empty,
  provided the encoder emits no '&'. The
  success and failure records are modelled too, along with
  `fetchSinglePost` and `fetchCategoryBySlug`.

Things outside the program become parameters:

- `stripHtmlTags` (a DOMParser) is `stripHtmlTags: string -> string`;
- `encodeURIComponent` is `encode: string -> string`;
- the network is `transport: string -> Api.Response<...>`. A
  `Response` is `Failed` (network error, non-2xx status or bad JSON, which
  all reach the same `catch`) or `Delivered`. `Delivered` carries the decoded
  body and the two total headers.

Two behaviours of the source worth knowing, both stated as lemmas:

- `fetchSinglePost("")` sends no slug filter, because `""` is falsy. It
  therefore asks for the first post of the unfiltered listing
  (`Api.SinglePostEmptySlug`).
- A failed request gives the same record as an empty page reporting zero
  pages (`Api.FailureLooksEmpty`). So the category page cannot tell a failure
  from an empty category (`Api.FailedFetchHidesPagination`).

In the carousel, a new `images` list alone does not reset `currentIndex`.
The effect depends only on `[initialIndex, open]`. After a shorter list
arrives, the index can point past its end; `ModalState.View` then shows no
image, where the component would read `images[currentIndex]` as `undefined`.

Two points of reading the code:

- The comment at `src/pages/Category.tsx:97` says the window shows
  `maxPagesToShow - 2` pages. The code agrees, for every `currentPage`, when
  there are more than five pages (`CategoryPage.WindowShape`).
- `currentPage < totalPages / 2` divides exactly in JavaScript, so the model
  compares `2 * currentPage < totalPages`.

## Model

| member | source | states |
|---|---|---|
| `Wrappers.First` | src/services/api.ts:62 | the first element exactly when the list is non-empty, otherwise none |
| `PageTokens.LayoutContents` | src/lib/api-utils.ts:53-70 | the shared window shape (page 1, optional leading ellipsis, a run of pages, optional trailing ellipsis, last page): its first and last tokens, exactly which pages it shows, where each ellipsis sits, its length and its page count |
| `PageTokens.LayoutWellOrdered` | src/pages/Category.tsx:91-122 | when the run lies between 2 and last-1 and each ellipsis is present exactly when it hides a page, the page numbers strictly ascend, neighbouring numbers differ by one unless an ellipsis lies between them, and each ellipsis hides at least one page |
| `PageTokens.PageRunWellOrdered` | src/lib/api-utils.ts:46-50 | the pages lo..hi in order are well ordered |
| `Utils.TrimStart` | src/lib/utils.ts:48 | a suffix of the input that starts with a non-whitespace character; everything dropped is whitespace |
| `Utils.TrimEnd` | src/lib/utils.ts:48 | a prefix of the input that ends with a non-whitespace character; everything dropped is whitespace |
| `Utils.Trim` | src/lib/utils.ts:48 | `trim`: the result is a slice of the input with non-whitespace at both ends, and only whitespace lies outside the slice |
| `Utils.TrimOfUnique` | src/lib/utils.ts:48 | at most one string satisfies that description, so it determines `trim` |
| `Utils.TrimIdempotent` | src/lib/utils.ts:48 | trimming twice is trimming once |
| `Utils.Substring` | src/lib/utils.ts:48 | `substring`: never longer than the string; see the three lemmas below for what it selects |
| `Utils.SubstringSymmetric` | src/lib/utils.ts:48 | swapping the two indices gives the same text |
| `Utils.SubstringSlice` | src/lib/utils.ts:48 | indices in order and within the string select exactly the slice between them |
| `Utils.SubstringClamps` | src/lib/utils.ts:48 | either index at or below 0 acts as 0 and either index at or past the length acts as the length, whatever the other index; equal indices give the empty string |
| `Utils.GetExcerpt` | src/lib/utils.ts:41-49 | text of at most `length` characters is returned unchanged; longer text becomes the trim of its first `length` characters followed by "..."; for a non-negative length the result is never longer than `length + 3` |
| `Utils.GetExcerptDefault` | src/lib/utils.ts:41-49 | without a length, getExcerpt uses 160: text of at most 160 characters is unchanged, and no result is longer than 163 |
| `ApiUtils.GetPostImage` | src/lib/api-utils.ts:8-30 | the placeholder without a first featured media; otherwise the first rendition of the size's preference list that exists, falling back to the original |
| `ApiUtils.PostImagePreferences` | src/lib/api-utils.ts:15-29 | 'full' and 'thumbnail' give the original; 'medium' gives medium_large or the original; 'large' gives large, then medium_large, then the original |
| `ApiUtils.PostImageSource` | src/lib/api-utils.ts:9-29 | the URL is always the placeholder, the original, or one of the two renditions of the first media |
| `ApiUtils.GetPostExcerpt` | src/lib/api-utils.ts:35-37 | the excerpt contract of getExcerpt, applied to the post's rendered excerpt |
| `ApiUtils.GetPostImageDefault` | src/lib/api-utils.ts:8-30 | without a size, getPostImage uses 'large': the placeholder without media, otherwise large, then medium_large, then the original |
| `ApiUtils.GetPostExcerptDefault` | src/lib/api-utils.ts:35-37 | without a length, getPostExcerpt uses its own default of 160, the same as getExcerpt's, so no result is longer than 163 |
| `ApiUtils.GeneratePaginationLinks` | src/lib/api-utils.ts:42-74 | the pushing loops build exactly the window `PaginationLinks` |
| `ApiUtils.LinksFewPages` | src/lib/api-utils.ts:46-50 | up to five pages: pages 1..totalPages in order without ellipsis, so nothing when totalPages <= 0 |
| `ApiUtils.LinksWellOrdered` | src/lib/api-utils.ts:53-70 | page numbers strictly ascend, consecutive numbers differ by one unless an ellipsis separates them, and each ellipsis hides a page |
| `ApiUtils.LinksManyPages` | src/lib/api-utils.ts:53-70 | more than five pages: page 1 first and the last page last; shows exactly 1, totalPages and the neighbours of the current page between them; 'ellipsis-start' iff currentPage > 3, right after page 1; 'ellipsis-end' iff currentPage < totalPages-2, right before the last; at most 7 tokens and 5 page numbers |
| `ApiUtils.LinksShowCurrent` | src/lib/api-utils.ts:46-70 | every page shown lies in 1..totalPages, and the current page is shown whenever it lies there |
| `ApiUtils.LinksExamples` | src/lib/api-utils.ts:42-74 | the windows for pages 1, 5 and 10 of 10 |
| `CategoryPage.GetPageNumbers` | src/pages/Category.tsx:80-126 | the pushing loops and the reassigned startPage/endPage build exactly the window `PageNumbers` |
| `CategoryPage.WindowShape` | src/pages/Category.tsx:94-104 | more than five pages: the adjusted window holds exactly three pages (maxPagesToShow - 2), lies within 2..totalPages-1, only ever widened, and contains the current page when it is neither first nor last |
| `CategoryPage.WindowDirection` | src/pages/Category.tsx:99-103 | in the first half of the range the window keeps its start and grows right; otherwise it keeps its end and grows left |
| `CategoryPage.PageNumbersFewPages` | src/pages/Category.tsx:84-88 | up to five pages: pages 1..totalPages in order without ellipsis |
| `CategoryPage.PageNumbersWellOrdered` | src/pages/Category.tsx:91-122 | page numbers strictly ascend, consecutive numbers differ by one unless an ellipsis separates them, and each ellipsis hides a page |
| `CategoryPage.PageNumbersManyPages` | src/pages/Category.tsx:91-122 | more than five pages: page 1 first and the last page last; the pages shown are 1, the three-page window and the last; 'ellipsis-start' iff startPage > 2 (iff currentPage > 3), right after page 1; 'ellipsis-end' iff endPage < totalPages-1 (iff currentPage < totalPages-2), right before the last; exactly 5 page numbers and 5 to 7 tokens |
| `CategoryPage.PageNumbersShowCurrent` | src/pages/Category.tsx:84-122 | every page shown lies in 1..totalPages, and the current page is shown whenever it lies there |
| `CategoryPage.CategoryWindowExtendsLinks` | src/pages/Category.tsx:80-126 | compared with generatePaginationLinks: identical up to five pages; beyond that, every page it shows is also shown here and both place the same ellipses |
| `CategoryPage.PageNumbersExamples` | src/pages/Category.tsx:98-104 | the windows for pages 1, 5 and 10 of 10, e.g. [1,2,3,4,…,10] and [1,…,7,8,9,10] |
| `CategoryPage.ClickSteps` | src/pages/Category.tsx:166-209 | Previous moves to currentPage-1 exactly when currentPage > 1 and Next to currentPage+1 exactly when currentPage < totalPages; otherwise they stay |
| `CategoryPage.ClicksStayInRange` | src/pages/Category.tsx:166-209 | starting in 1..totalPages, any sequence of Previous, Next and page-link clicks stays in 1..totalPages |
| `CategoryPage.Pager.constructor` | src/pages/Category.tsx:20 | the pager starts at the given page and total |
| `CategoryPage.Pager.Previous` | src/pages/Category.tsx:166-171 | the new page is the Previous step from the old one, and it stays inside 1..totalPages |
| `CategoryPage.Pager.Next` | src/pages/Category.tsx:201-206 | the new page is the Next step from the old one, and it stays inside 1..totalPages |
| `CategoryPage.Pager.SelectPage` | src/pages/Category.tsx:182-185 | a page link sets the page to its number |
| `CategoryPage.Pager.Click` | src/pages/Category.tsx:177-196 | clicking a token of the rendered control goes to that page when it is a number and does nothing on an ellipsis; the page stays in range |
| `CategoryPage.ShownControlsHavePages` | src/pages/Category.tsx:77-160 | when the controls are rendered (loaded, some posts, more than one page) their window has at least two page links, starting with 1 and ending with totalPages |
| `ImageModal.NavigationIsModular` | src/components/ImageModal.tsx:47-55 | with more than one image, Next is +1 and Previous is -1 modulo the image count; with at most one, both do nothing |
| `ImageModal.NavigationInverse` | src/components/ImageModal.tsx:47-55 | Next undoes Previous and Previous undoes Next |
| `ImageModal.NavigateStaysInRange` | src/components/ImageModal.tsx:47-55 | from an index inside the list, any sequence of moves stays inside it |
| `ImageModal.ForwardsIsModular` | src/components/ImageModal.tsx:52-55 | k Next steps add k modulo the image count |
| `ImageModal.FullCycle` | src/components/ImageModal.tsx:52-55 | as many Next steps as there are images return to the start |
| `ImageModal.ModalState.constructor` | src/components/ImageModal.tsx:20-21 | the first render starts at initialIndex |
| `ImageModal.ModalState.WithDefaultIndex` | src/components/ImageModal.tsx:20-21 | without an initialIndex prop the index starts at 0, the first image whenever there is one |
| `ImageModal.ModalState.Rerender` | src/components/ImageModal.tsx:24-26 | new props are stored; the index is reset to initialIndex exactly when initialIndex or open changed |
| `ImageModal.ModalState.NavigatePrevious` | src/components/ImageModal.tsx:47-50 | the index becomes its predecessor with wrap-around (nothing with at most one image) and stays in range |
| `ImageModal.ModalState.NavigateNext` | src/components/ImageModal.tsx:52-55 | the index becomes its successor with wrap-around (nothing with at most one image) and stays in range |
| `ImageModal.ModalState.HandleKeyDown` | src/components/ImageModal.tsx:28-38 | while open, ArrowLeft goes back, ArrowRight goes on and Escape requests closing; every other key, and every key while closed, changes nothing; the index stays in range |
| `ImageModal.ModalState.View` | src/components/ImageModal.tsx:74-149 | nothing for an empty list; otherwise the Dialog is shown exactly when `open`, the counter is currentIndex+1 of images.length, arrows appear exactly with more than one image, an index in range shows its image and an index out of range shows none, and the caption is the shown image's caption when it is non-empty |
| `Text.DecimalString` | src/services/api.ts:21 | `${n}`: non-empty, made only of digits and '-' |
| `Text.DecimalRoundTrip` | src/services/api.ts:21 | every integer is read back from its decimal rendering |
| `Text.DecimalInjective` | src/services/api.ts:21 | distinct integers render differently |
| `Text.Join` | src/services/api.ts:24 | `join`: empty for no parts, otherwise it starts with the first part, followed by the separator when more parts follow; JoinAppend, SplitJoin and JoinSplit below are its partner lemmas |
| `Text.JoinAppend` | src/services/api.ts:24 | joining one more part appends the separator and the part |
| `Text.SplitJoin` | src/services/api.ts:24 | splitting a join at its separator gives the parts back when none contains the separator |
| `Text.JoinSplit` | src/services/api.ts:24 | joining the pieces of a split restores the string |
| `Query.ParseRenderParam` | src/services/api.ts:21-33 | a rendered `name` or `name=value` parameter whose name has no '=' reads back as itself |
| `Query.RenderQueryAppend` | src/services/api.ts:23-33 | appending a parameter appends '&' and its rendering |
| `Query.QueryRoundTrip` | src/services/api.ts:21-33 | a query of plain parameters reads back as the same parameters in the same order |
| `Api.PostsUrlSteps` | src/services/api.ts:21-33 | the URL that the `+=` steps build is the rendering of `PostsQuery`: `_embed`, page, per_page, then categories, search and slug, each only when set and non-empty |
| `Api.PostsUrlPrefix` | src/services/api.ts:21 | every posts URL starts with the API root, `/posts?_embed&page=`, the page, `&per_page=` and the page size |
| `Api.IdsRoundTrip` | src/services/api.ts:24 | a non-empty category list is read back from `categories.join(',')` |
| `Api.PostsQueryPlain` | src/services/api.ts:21-33 | no name or value in a posts query contains '&' (and no name contains '='), provided the encoder leaves no '&' in search and slug |
| `Api.PostsQueryFieldValue` | src/services/api.ts:21-33 | looking up a parameter by name: page and per_page are always there; categories, search and slug are there exactly when set and non-empty |
| `Api.PostsQueryReadsBack` | src/services/api.ts:15-33 | the query string parses back to its parameters; page and per_page give the requested values or the defaults 1 and 9; the category ids come back exactly when the list was non-empty; the encoded search and slug come back exactly when non-empty |
| `Api.PostsResult` | src/services/api.ts:45-55 | the current page is always the requested one; on failure no posts and zero totals; on delivery the body and the reported totals |
| `Api.FetchPosts` | src/services/api.ts:14-57 | the result is the record for the requested page and for whatever the transport answers to `PostsUrl` |
| `Api.SinglePostQuery` | src/services/api.ts:61 | fetchSinglePost's query asks for page 1 with one post per page, and carries the slug filter exactly when the slug is non-empty |
| `Api.SinglePostEmptySlug` | src/services/api.ts:59-62 | with an empty slug the URL is that of the unfiltered one-post query, `_embed&page=1&per_page=1` |
| `Api.FetchSinglePost` | src/services/api.ts:59-67 | a post exactly when the query was delivered with at least one post, and then the first one |
| `Api.FetchCategoryBySlug` | src/services/api.ts:99-113 | the query of that slug; a category exactly when it was delivered with a match, and then the first one |
| `Api.FailureLooksEmpty` | src/services/api.ts:53-55 | a failed request yields the same record as an empty delivery reporting zero pages |
| `Api.FailedFetchHidesPagination` | src/pages/Category.tsx:77-160 | after a failed request the category page has no pages and shows no pagination |
| `Api.GetPostImage` | src/services/api.ts:115-137 | the copy in api.ts picks the same URL as getPostImage of api-utils |
| `Api.GetExcerptDefault` | src/services/api.ts:153-161 | without a length, the api.ts getExcerpt uses its own default of 160, and gives the same text as getPostExcerpt's default; no result is longer than 163 |
| `Api.GetExcerpt` | src/services/api.ts:153-161 | the copy in api.ts gives the same text as getPostExcerpt of api-utils |
| `WpApiService.WordPressApiService.constructor` | src/services/wp-api-service.ts:8-10 | the service's API root is the one passed in |
| `WpApiService.WordPressApiService.Default` | src/services/wp-api-service.ts:8 | without an argument the root is the same API root as src/services/api.ts uses |
| `WpApiService.WordPressApiService.FetchPosts` | src/services/wp-api-service.ts:12-58 | the same query and result records as `Api.FetchPosts`, sent against this service's root |
| `WpApiService.WordPressApiService.FetchSinglePost` | src/services/wp-api-service.ts:60-68 | a post exactly when the one-post query for the slug was delivered with at least one post, and then the first one |
| `WpApiService.SameQueryAnyRoot` | src/services/wp-api-service.ts:15-27 | whatever the root, the text after it is the query that src/services/api.ts:21-33 builds |

## Left out

- Network, `async`/`await`, `response.json()` and the `console.error` logging are not modelled. The transport is a pure function of the URL, so two identical requests get the same answer.
- Api.FetchPosts: `parseInt` of the X-WP-TotalPages and X-WP-Total headers is not modelled. The totals arrive as naturals, so a missing header (0) and an unparsable one (NaN) are not distinguished.
- `fetchCategories` and `fetchCategory` in both service files, and `WordPressApiService.fetchCategoryBySlug` (src/services/wp-api-service.ts:100-114), are not modelled. They are a single request each with no logic besides the fallback value; the `fetchCategoryBySlug` of src/services/api.ts is modelled as `Api.FetchCategoryBySlug`.
- ParseRenderParam: only a parameter whose name has no '=' reads back as itself (`a=b` as a flag reads back as the field `a` with value `b`). Every name the query builders use is a fixed literal without '='.
- `encodeURIComponent`, `stripHtmlTags`, `decodeHtmlEntities`, `formatDate` and `cn` are browser or library functions. The first two are parameters; the rest are not used by the core.
- Page numbers and sizes are integers. JavaScript numbers that are fractional, NaN or infinite are not modelled. Neither is the coercion `Number(searchParams.get('page')) || 1` at src/pages/Category.tsx:20.
- Text.DecimalString: renders every digit of any integer. JavaScript's `${n}` and `join` switch to exponent form from 1e21 on and lose precision above 2^53; page numbers and ids that large are not modelled.
- `encodeURIComponent` throws a URIError on a lone surrogate (src/services/api.ts:28 and 32). That happens before the `try` at line 35, so `fetchPosts` would reject rather than return the empty record. The model's `encode` is a total function and never fails.
- String lengths count characters, not UTF-16 code units as `length` and `substring` do.
- ImageModal.ModalState.View: for an index outside the list it renders no image. The component would instead fail reading `undefined.src`.
- ImageModal: fullscreen toggling (src/components/ImageModal.tsx:57-72) is left out. So is the keydown listener's registration (lines 40-45). The model dispatches each key with the current props, whereas the registered handler sees the props of the render that registered it.
- `window.scrollTo`, react-query caching and loading states are left out. `postsLoading` is an input of the pagination rule.
- The sitemap generator, the JSX components, `src/pages/Index.tsx` and the one-line filters in the navigation components are not part of this model.
