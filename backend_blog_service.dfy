/** `BlogService` of the `backend` module: the blog store with ownership
    checks and a partial, stamped update. */
module BackendBlogService {
  import opened Wrappers
  import opened Entities
  import opened BlogResponses
  import opened Paging
  import JavaText

  /** A non-null, non-blank value: what the update accepts for a field. */
  predicate Supplied(value: JString) {
    value.Some? && !JavaText.IsBlank(value.value)
  }

  /** The update's rule for one field: a supplied value replaces the
      current one, anything else (null, empty or whitespace only) keeps it. */
  function Patch(current: JString, incoming: JString): JString {
    if Supplied(incoming) then incoming else current
  }

  /** A field that holds a non-blank value never loses it to an update, and
      applying the same update twice is applying it once. */
  lemma PatchKeepsSupplied(current: JString, incoming: JString)
    ensures Supplied(current) ==> Supplied(Patch(current, incoming))
    ensures Patch(Patch(current, incoming), incoming) == Patch(current, incoming)
    ensures Patch(current, incoming) == current || Patch(current, incoming) == incoming
  {
  }

  /** The blog as a successful update leaves it: each of title and content
      patched on its own, the update stamp set, and id, owner and creation
      stamp as they were. */
  function Updated(blog: Blog, request: BlogRequest, now: Instant): (b: Blog)
    ensures b.id == blog.id && b.userId == blog.userId && b.createdAt == blog.createdAt
    ensures b.updatedAt == Some(now)
    ensures b.title == (if Supplied(request.title) then request.title else blog.title)
    ensures b.content == (if Supplied(request.content) then request.content else blog.content)
  {
    blog.(title := Patch(blog.title, request.title),
          content := Patch(blog.content, request.content),
          updatedAt := Some(now))
  }

  /** Every blog on a page paired with its author's name, or "User not
      found" as soon as one author is missing. */
  function Responses(ids: seq<string>, blogs: map<string, Blog>, users: map<string, User>)
    : (r: Result<seq<BlogResponse>, Exception>)
    requires forall i :: 0 <= i < |ids| ==> ids[i] in blogs
    ensures r.Success? <==> forall i :: 0 <= i < |ids| ==> blogs[ids[i]].userId in users
    ensures r.Failure? ==> r.error == Runtime("User not found")
    ensures r.Success? ==> |r.value| == |ids|
    ensures r.Success? ==> forall i :: 0 <= i < |ids| ==>
      r.value[i] == FromEntity(blogs[ids[i]], users[blogs[ids[i]].userId].name)
  {
    if ids == [] then Success([])
    else
      var blog := blogs[ids[0]];
      if blog.userId !in users then Failure(Runtime("User not found"))
      else
        match Responses(ids[1..], blogs, users)
        case Failure(e) => Failure(e)
        case Success(rest) => Success([FromEntity(blog, users[blog.userId].name)] + rest)
  }

  /** `order` lists every key of the repository exactly once. */
  ghost predicate Enumerates(order: seq<string>, blogs: map<string, Blog>) {
    && (forall i :: 0 <= i < |order| ==> order[i] in blogs)
    && (forall id :: id in blogs ==> id in order)
    && (forall i, j :: 0 <= i < j < |order| ==> order[i] != order[j])
  }

  class BlogService {
    /** The blog repository, by blog id. */
    var blogs: map<string, Blog>
    /** The user repository, by user id. */
    var users: map<string, User>

    ghost predicate Valid()
      reads this
    {
      BlogsKeyedById(blogs) && UsersKeyedById(users)
    }

    constructor (users: map<string, User>)
      requires UsersKeyedById(users)
      ensures Valid() && blogs == map[] && this.users == users
    {
      this.blogs := map[];
      this.users := users;
    }

    /** `createBlog`: the blog is saved under the id the repository hands
        out before the author is looked up, so an unknown author still
        leaves the new blog stored. */
    method CreateBlog(request: BlogRequest, userId: string, now: Instant, freshId: string)
      returns (r: Result<BlogResponse, Exception>)
      requires Valid() && freshId !in blogs
      modifies this
      ensures Valid() && users == old(users)
      ensures blogs == old(blogs)[freshId := Blog(freshId, userId, request.title, request.content, now, None)]
      ensures userId in users ==> r == Success(FromEntity(blogs[freshId], users[userId].name))
      ensures userId !in users ==> r == Failure(Runtime("User not found"))
    {
      var blog := Blog(freshId, userId, request.title, request.content, now, None);
      blogs := blogs[freshId := blog];
      if userId !in users {
        return Failure(Runtime("User not found"));
      }
      r := Success(FromEntity(blog, users[userId].name));
    }

    /** `getAllBlogs(page, size)` over the repository order `order`. */
    method GetAllBlogs(page: int, size: int, order: seq<string>)
      returns (r: Result<Page<BlogResponse>, Exception>)
      requires Valid() && Enumerates(order, blogs)
      ensures page < 0 || size < 1 ==> r == Failure(InvalidPageRequest)
      ensures page >= 0 && size >= 1 ==>
        var ids := PageOf(order, page, size);
        && (r.Success? <==> forall i :: 0 <= i < |ids| ==> blogs[ids[i]].userId in users)
        && (r.Failure? ==> r.error == Runtime("User not found"))
        && (r.Success? ==>
              && r.value.number == page && r.value.size == size && r.value.totalElements == |order|
              && |r.value.content| == |ids|
              && forall i :: 0 <= i < |ids| ==>
                   r.value.content[i] == FromEntity(blogs[ids[i]], users[blogs[ids[i]].userId].name))
    {
      if page < 0 || size < 1 {
        return Failure(InvalidPageRequest);
      }
      var ids := PageOf(order, page, size);
      var responses := Responses(ids, blogs, users);
      match responses
      case Failure(e) =>
        r := Failure(e);
      case Success(content) =>
        r := Success(Page(content, page, size, |order|));
    }

    /** `getBlogById`. */
    method GetBlogById(blogId: string) returns (r: Result<BlogResponse, Exception>)
      requires Valid()
      ensures blogId !in blogs ==> r == Failure(Runtime("Blog not found"))
      ensures blogId in blogs && blogs[blogId].userId !in users ==> r == Failure(Runtime("User not found"))
      ensures blogId in blogs && blogs[blogId].userId in users ==>
        r == Success(FromEntity(blogs[blogId], users[blogs[blogId].userId].name))
    {
      if blogId !in blogs {
        return Failure(Runtime("Blog not found"));
      }
      var blog := blogs[blogId];
      if blog.userId !in users {
        return Failure(Runtime("User not found"));
      }
      r := Success(FromEntity(blog, users[blog.userId].name));
    }

    /** `updateBlog`: only the owner may update; a missing blog is
        NOT_FOUND and another caller FORBIDDEN, both leaving the store as it
        was. The updated blog is saved before the caller's name is looked
        up. */
    method UpdateBlog(blogId: string, request: BlogRequest, userId: string, now: Instant)
      returns (r: Result<BlogResponse, Exception>)
      requires Valid()
      modifies this
      ensures Valid() && users == old(users)
      ensures blogId !in old(blogs) ==>
        r == Failure(Status(NotFound, "Blog not found")) && blogs == old(blogs)
      ensures blogId in old(blogs) && old(blogs)[blogId].userId != userId ==>
        r == Failure(Status(Forbidden, "You are not the author of this blog")) && blogs == old(blogs)
      ensures blogId in old(blogs) && old(blogs)[blogId].userId == userId ==>
        && blogs == old(blogs)[blogId := Updated(old(blogs)[blogId], request, now)]
        && (userId in users ==> r == Success(FromEntity(blogs[blogId], users[userId].name)))
        && (userId !in users ==> r == Failure(Runtime("User not found")))
    {
      if blogId !in blogs {
        return Failure(Status(NotFound, "Blog not found"));
      }
      var blog := blogs[blogId];
      if blog.userId != userId {
        return Failure(Status(Forbidden, "You are not the author of this blog"));
      }
      if Supplied(request.title) {
        blog := blog.(title := request.title);
      }
      if Supplied(request.content) {
        blog := blog.(content := request.content);
      }
      blog := blog.(updatedAt := Some(now));
      blogs := blogs[blogId := blog];
      if userId !in users {
        return Failure(Runtime("User not found"));
      }
      r := Success(FromEntity(blog, users[userId].name));
    }

    /** `deleteBlog`: the owner's call removes exactly that blog; a missing
        blog or another caller raises and changes nothing. */
    method DeleteBlog(blogId: string, userId: string) returns (r: Result<(), Exception>)
      requires Valid()
      modifies this
      ensures Valid() && users == old(users)
      ensures blogId !in old(blogs) ==> r == Failure(Runtime("Blog not found")) && blogs == old(blogs)
      ensures blogId in old(blogs) && old(blogs)[blogId].userId != userId ==>
        r == Failure(Runtime("You are not allowed to delete this blog")) && blogs == old(blogs)
      ensures blogId in old(blogs) && old(blogs)[blogId].userId == userId ==>
        r == Success(()) && blogs == old(blogs) - {blogId}
    {
      if blogId !in blogs {
        return Failure(Runtime("Blog not found"));
      }
      var blog := blogs[blogId];
      if blog.userId != userId {
        return Failure(Runtime("You are not allowed to delete this blog"));
      }
      blogs := blogs - {blog.id};
      r := Success(());
    }
  }
}
