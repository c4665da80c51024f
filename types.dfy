/** The records exchanged with the content API (src/types/index.ts and src/services/api-interface.ts). */
module Types {
  import opened Wrappers

  /** One resized rendition of a featured image. */
  datatype SizedImage = SizedImage(sourceUrl: string)

  /** `media_details.sizes`: the two renditions the front-end knows about. */
  datatype MediaSizes = MediaSizes(mediumLarge: Option<SizedImage>, large: Option<SizedImage>)

  datatype MediaDetails = MediaDetails(sizes: Option<MediaSizes>)

  /** An entry of `_embedded['wp:featuredmedia']`; `sourceUrl` is the original upload. */
  datatype FeaturedMedia = FeaturedMedia(sourceUrl: string, altText: Option<string>, mediaDetails: Option<MediaDetails>)

  /** The `_embedded` block of a post (only the featured-media list is modelled). */
  datatype Embedded = Embedded(featuredMedia: Option<seq<FeaturedMedia>>)

  /** A post; `title`, `excerpt` and `content` hold the `rendered` HTML strings. */
  datatype Post = Post(
    id: int,
    slug: string,
    title: string,
    excerpt: string,
    content: string,
    embedded: Option<Embedded>,
    categories: seq<int>,
    tags: seq<int>)

  datatype Category = Category(id: int, name: string, slug: string, description: Option<string>)

  datatype PaginationInfo = PaginationInfo(totalPages: int, totalPosts: int, currentPage: int)

  /** The optional filters of a posts query; every field may be left undefined. */
  datatype FetchPostsOptions = FetchPostsOptions(
    page: Option<int>,
    perPage: Option<int>,
    categories: Option<seq<int>>,
    search: Option<string>,
    slug: Option<string>)

  datatype FetchPostsResult = FetchPostsResult(posts: seq<Post>, pagination: PaginationInfo)
}
