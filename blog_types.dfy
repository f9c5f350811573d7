/** The records the front end passes around: a post with its author, and a category. */
module BlogTypes {
  datatype Author = Author(name: string, avatar: string, bio: string)

  /** `publishedAt` is an ISO `YYYY-MM-DD` date; `readingTime` is in minutes. */
  datatype Post = Post(
    id: string,
    title: string,
    excerpt: string,
    content: string,
    author: Author,
    publishedAt: string,
    readingTime: int,
    category: string,
    tags: seq<string>,
    featured: bool,
    image: string,
    slug: string)

  /** `count` is the number of posts the filter bar advertises for the category. */
  datatype Category = Category(id: string, name: string, slug: string, count: int)
}
