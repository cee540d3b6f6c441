/** The dashboard page: the list of posts it loads, the mapping of the
    server's records to cards, the "Your Post" and "Updated" marks, the card
    excerpt, and deletion. */
module Dashboard {
  import opened Wrappers
  import opened PageEffects
  import opened BlogResponses
  import Entities
  import Preview
  import AuthContext

  /** A record of the loaded page's `content` array as JSON gives it; any
      field may be absent. */
  datatype RawBlog = RawBlog(
    id: string,
    title: Option<string>,
    content: Option<string>,
    authorName: Option<string>,
    createdAt: string,
    updatedAt: Option<string>)

  /** A card's record after mapping: author and update stamp filled in. */
  datatype Post = Post(
    id: string,
    title: Option<string>,
    content: Option<string>,
    authorName: string,
    createdAt: string,
    updatedAt: string)

  const UnknownAuthor := "Unknown"
  const LoadFailed := "Failed to load blogs. Try again."
  const DeleteFailed := "Failed to delete blog. Try again."
  const Deleted := Toast("Blog deleted", "Your blog post has been successfully deleted.", false)

  /** `api.get('/blogs')`. The shared axios client sets only a content type,
      so the request carries no `Authorization` header, and it names no page
      or size, so the controller's defaults (page 0 of size 10) apply. */
  const ListRequest := Call(HttpGet, "/blogs", None, None)

  /** `api.delete(`/blogs/${blogId}`)`, also without an `Authorization`
      header. */
  function DeleteRequest(blogId: string): Call {
    Call(HttpDelete, "/blogs/" + blogId, None, None)
  }
  /** Characters of content a card shows before the ellipsis. */
  const CardExcerptLength: nat := 100

  /** The mapping of one loaded record: a missing or empty author becomes
      'Unknown' and a missing or empty update stamp becomes the creation
      stamp; the other fields are copied. */
  function ToPost(b: RawBlog): (p: Post)
    ensures p.id == b.id && p.title == b.title && p.content == b.content && p.createdAt == b.createdAt
    ensures p.authorName != []
    ensures b.authorName.Some? && b.authorName.value != [] ==> p.authorName == b.authorName.value
    ensures b.authorName.None? || b.authorName.value == [] ==> p.authorName == UnknownAuthor
    ensures b.updatedAt.Some? && b.updatedAt.value != [] ==> p.updatedAt == b.updatedAt.value
    ensures b.updatedAt.None? || b.updatedAt.value == [] ==> p.updatedAt == b.createdAt
  {
    Post(b.id, b.title, b.content, Or(b.authorName, UnknownAuthor), b.createdAt, Or(b.updatedAt, b.createdAt))
  }

  /** `data.map(...)`, one card per record and in the same order. */
  function ToPosts(data: seq<RawBlog>): (r: seq<Post>)
    ensures |r| == |data|
    ensures forall i :: 0 <= i < |data| ==> r[i] == ToPost(data[i])
  {
    seq(|data|, i requires 0 <= i < |data| => ToPost(data[i]))
  }

  /** `res.data.content || []`. */
  function LoadedContent(content: Option<seq<RawBlog>>): seq<RawBlog> {
    if content.Some? then content.value else []
  }

  /** The "Updated" mark: the update stamp differs from the creation stamp. */
  predicate ShowsUpdated(p: Post) {
    p.updatedAt != p.createdAt
  }

  /** A card shows "Updated" exactly when its record carries a non-empty
      update stamp other than its creation stamp. */
  lemma ShowsUpdatedIff(b: RawBlog)
    ensures ShowsUpdated(ToPost(b))
        <==> b.updatedAt.Some? && b.updatedAt.value != [] && b.updatedAt.value != b.createdAt
  {
  }

  /** `blog.authorName === user?.name`: the "Your Post" badge and the
      edit and delete buttons. */
  predicate IsOwnPost(p: Post, user: Option<AuthContext.SessionUser>) {
    user.Some? && p.authorName == user.value.name
  }

  /** Ownership is decided by name alone: a signed-in user named 'Unknown'
      is shown every post whose record has no author as their own, with the
      edit and delete buttons. */
  lemma UnknownUserOwnsAuthorless(b: RawBlog, u: AuthContext.SessionUser)
    requires u.name == UnknownAuthor
    requires b.authorName.None? || b.authorName.value == []
    ensures IsOwnPost(ToPost(b), Some(u))
  {
  }

  /** Two users with the same name own the same cards. */
  lemma OwnershipByNameOnly(p: Post, u1: AuthContext.SessionUser, u2: AuthContext.SessionUser)
    requires u1.name == u2.name
    ensures IsOwnPost(p, Some(u1)) <==> IsOwnPost(p, Some(u2))
  {
  }

  /** The card excerpt: the first 100 characters of the content, with an
      ellipsis when there are more. Rendering a card whose content is
      missing throws, so the content must be present. */
  function CardExcerpt(p: Post): (r: string)
    requires p.content.Some?
    ensures |p.content.value| <= CardExcerptLength ==> r == p.content.value
    ensures |p.content.value| > CardExcerptLength ==> r == p.content.value[..CardExcerptLength] + "..."
  {
    var r := Preview.Excerpt(p.content.value, CardExcerptLength);
    assert |p.content.value| > CardExcerptLength ==> r == r[..CardExcerptLength] + r[CardExcerptLength..];
    r
  }

  /** How a response built by the `omnify` module's `fromEntity` reaches the
      page: its fields by name, the creation stamp as the serialiser writes it,
      and no update stamp, which that response does not have. */
  function Received(r: BlogResponse, stamp: Entities.Instant -> string): RawBlog {
    RawBlog(r.id, r.title, r.content, r.authorName, stamp(r.createdAt), None)
  }

  /** Against the `omnify` responses, a card shows the blog's content where
      the author belongs ('Unknown' when the content is missing or empty),
      the author's name as its content, and never the "Updated" mark. */
  lemma OmnifyCards(blog: Entities.Blog, authorName: string, stamp: Entities.Instant -> string)
    ensures var p := ToPost(Received(FromEntity(blog, authorName), stamp));
      && p.content == Some(authorName)
      && (blog.content.Some? && blog.content.value != [] ==> p.authorName == blog.content.value)
      && (blog.content.None? || blog.content.value == [] ==> p.authorName == UnknownAuthor)
      && !ShowsUpdated(p)
  {
  }

  /** `prev.filter(blog => blog.id !== blogId)`. The result holds exactly
      the posts of the input with another id. */
  function RemoveId(posts: seq<Post>, id: string): (r: seq<Post>)
    ensures |r| <= |posts|
    ensures forall p :: p in r <==> p in posts && p.id != id
  {
    if posts == [] then []
    else if posts[0].id != id then [posts[0]] + RemoveId(posts[1..], id)
    else RemoveId(posts[1..], id)
  }

  /** Filtering a list with no post of that id returns it unchanged. */
  lemma {:induction false} RemoveIdAbsent(posts: seq<Post>, id: string)
    requires forall i :: 0 <= i < |posts| ==> posts[i].id != id
    ensures RemoveId(posts, id) == posts
  {
    if posts != [] {
      RemoveIdAbsent(posts[1..], id);
    }
  }

  /** Filtering works piecewise on a concatenation, so it keeps the order
      of the surviving posts. */
  lemma {:induction false} RemoveIdAppend(a: seq<Post>, b: seq<Post>, id: string)
    ensures RemoveId(a + b, id) == RemoveId(a, id) + RemoveId(b, id)
  {
    if a == [] {
      assert a + b == b;
    } else {
      assert (a + b)[1..] == a[1..] + b;
      RemoveIdAppend(a[1..], b, id);
    }
  }

  /** Deleting the same post twice leaves the list of the first deletion. */
  lemma RemoveIdIdempotent(posts: seq<Post>, id: string)
    ensures RemoveId(RemoveId(posts, id), id) == RemoveId(posts, id)
  {
    var r := RemoveId(posts, id);
    assert forall i :: 0 <= i < |r| ==> r[i] in r;
    RemoveIdAbsent(r, id);
  }

  /** Two deletions give the same list in either order. */
  lemma {:induction false} RemoveIdCommutes(posts: seq<Post>, a: string, b: string)
    ensures RemoveId(RemoveId(posts, a), b) == RemoveId(RemoveId(posts, b), a)
  {
    if posts != [] {
      RemoveIdCommutes(posts[1..], a, b);
    }
  }

  /** The page's state: the cards, the loading flag, the toasts shown so far,
      the requests sent so far and where `navigate` has sent the browser
      (None while it stays). */
  class DashboardPage {
    var blogs: seq<Post>
    var isLoading: bool
    var toasts: seq<Toast>
    var calls: seq<Call>
    var location: Option<string>

    /** The initial render: no cards and loading. */
    constructor ()
      ensures blogs == [] && isLoading && toasts == [] && calls == [] && location == None
    {
      blogs := [];
      isLoading := true;
      toasts := [];
      calls := [];
      location := None;
    }

    /** The mount effect: a signed-out visitor is sent to the login page
        and nothing is loaded; otherwise the posts are loaded. */
    method Mount(isAuthenticated: bool, response: Response<Option<seq<RawBlog>>>)
      modifies this
      ensures !isAuthenticated ==>
        && location == Some("/login") && blogs == old(blogs) && isLoading == old(isLoading)
        && toasts == old(toasts) && calls == old(calls)
      ensures isAuthenticated ==> location == old(location) && !isLoading && calls == old(calls) + [ListRequest]
      ensures isAuthenticated && response.Success? ==>
        blogs == ToPosts(LoadedContent(response.value)) && toasts == old(toasts)
      ensures isAuthenticated && response.Failure? ==>
        blogs == old(blogs) && toasts == old(toasts) + [ErrorToast(response.error, LoadFailed)]
    {
      if !isAuthenticated {
        location := Some("/login");
        return;
      }
      LoadBlogs(response);
    }

    /** `loadBlogs`: the list request is sent; on success the cards are the
        mapped records of the page's content (none when it is missing); on
        failure the cards stay and an error toast is shown. Loading ends
        either way. */
    method LoadBlogs(response: Response<Option<seq<RawBlog>>>)
      modifies this
      ensures !isLoading && location == old(location) && calls == old(calls) + [ListRequest]
      ensures response.Success? ==>
        blogs == ToPosts(LoadedContent(response.value)) && toasts == old(toasts)
      ensures response.Failure? ==>
        blogs == old(blogs) && toasts == old(toasts) + [ErrorToast(response.error, LoadFailed)]
    {
      isLoading := true;
      calls := calls + [ListRequest];
      if response.Success? {
        blogs := ToPosts(LoadedContent(response.value));
      } else {
        toasts := toasts + [ErrorToast(response.error, LoadFailed)];
      }
      isLoading := false;
    }

    /** `handleDelete(blogId)`: the delete request is sent; on success every
        card with that id is removed and a confirmation toast is shown; on
        failure the cards stay and an error toast is shown. */
    method HandleDelete(blogId: string, response: Response<()>)
      modifies this
      ensures isLoading == old(isLoading) && location == old(location)
      ensures calls == old(calls) + [DeleteRequest(blogId)]
      ensures response.Success? ==>
        blogs == RemoveId(old(blogs), blogId) && toasts == old(toasts) + [Deleted]
      ensures response.Failure? ==>
        blogs == old(blogs) && toasts == old(toasts) + [ErrorToast(response.error, DeleteFailed)]
    {
      calls := calls + [DeleteRequest(blogId)];
      if response.Success? {
        blogs := RemoveId(blogs, blogId);
        toasts := toasts + [Deleted];
      } else {
        toasts := toasts + [ErrorToast(response.error, DeleteFailed)];
      }
    }
  }
}
