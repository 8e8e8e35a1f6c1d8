/** The site's domain values. */
module Types {

  /** A comment kept in memory for the session; `id` is the creation time in milliseconds. */
  datatype Comment = Comment(id: int, author: string, content: string, date: string)

  datatype Article = Article(
    id: string,
    title: string,
    author: string,
    date: string,
    excerpt: string,
    content: string,
    tags: seq<string>,
    comments: seq<Comment>)

  datatype Bio = Bio(name: string, description: string, imageUrl: string)
}
