/** `BlogResponse` of the `omnify` module and its `fromEntity` factory. */
module BlogResponses {
  import opened Wrappers
  import opened Entities

  /** The response record, with the fields in declaration order; there is
      no `updatedAt` and no owner id. */
  datatype BlogResponse = BlogResponse(
    id: string,
    title: JString,
    authorName: JString,
    content: JString,
    createdAt: Instant)

  /** `fromEntity(blog, authorName)` passes its arguments to the all-fields
      constructor as (id, title, content, authorName, createdAt) while the
      fields are declared as (id, title, authorName, content, createdAt): the
      response's `authorName` carries the blog's content and its `content`
      carries the author's name. */
  function FromEntity(blog: Blog, authorName: string): (r: BlogResponse)
    ensures r.id == blog.id && r.title == blog.title && r.createdAt == blog.createdAt
    ensures r.authorName == blog.content && r.content == Some(authorName)
  {
    BlogResponse(blog.id, blog.title, blog.content, Some(authorName), blog.createdAt)
  }

  /** What a reader of a response can get back: (id, title, the blog's
      content, createdAt, the author's name). */
  datatype Visible = Visible(id: string, title: JString, content: JString, createdAt: Instant, authorName: string)

  /** Reads a response the way its fields are actually filled. */
  function Recover(r: BlogResponse): Option<Visible> {
    if r.content.Some? then Some(Visible(r.id, r.title, r.authorName, r.createdAt, r.content.value))
    else None
  }

  /** The response loses nothing but the owner and the update stamp: reading
      it back with the fields crossed recovers the blog's id, title, content,
      creation stamp and the author's name. */
  lemma RecoverFromEntity(blog: Blog, authorName: string)
    ensures Recover(FromEntity(blog, authorName))
         == Some(Visible(blog.id, blog.title, blog.content, blog.createdAt, authorName))
  {
  }

  /** Two blogs that differ only in owner or update stamp give the same
      response. */
  lemma FromEntityForgetsOwnerAndStamp(b1: Blog, b2: Blog, authorName: string)
    requires b1.id == b2.id && b1.title == b2.title && b1.content == b2.content && b1.createdAt == b2.createdAt
    ensures FromEntity(b1, authorName) == FromEntity(b2, authorName)
  {
  }

  /** Read by field name, a response shows the author's name as content:
      whenever the blog's content is not that name, the `authorName` field
      is not the author's name. */
  lemma FromEntityCrossesFields(blog: Blog, authorName: string)
    requires blog.content != Some(authorName)
    ensures FromEntity(blog, authorName).authorName != Some(authorName)
    ensures FromEntity(blog, authorName).content != blog.content
  {
  }
}
