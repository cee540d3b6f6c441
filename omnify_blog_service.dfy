/** `BlogService` of the `omnify` module: the same store and ownership
    checks as the backend one, but an update overwrites both fields with the
    request's values, whatever they are, and never stamps `updatedAt`. */
module OmnifyBlogService {
  import opened Wrappers
  import opened Entities
  import opened BlogResponses
  import opened Paging
  import BackendBlogService

  /** The blog as a successful update leaves it: title and content taken
      from the request as they are (null and blank included), everything
      else, the update stamp too, as it was. */
  function Overwritten(blog: Blog, request: BlogRequest): (b: Blog)
    ensures b.title == request.title && b.content == request.content
    ensures b.id == blog.id && b.userId == blog.userId
    ensures b.createdAt == blog.createdAt && b.updatedAt == blog.updatedAt
  {
    blog.(title := request.title, content := request.content)
  }

  /** Apart from the backend's update stamp, the two updates give the same
      blog exactly when each request field is either supplied (non-null and
      non-blank) or equal to the stored one: a null or blank field that
      differs from the stored value is where they part. */
  lemma OverwriteAgreesWithPatchIff(blog: Blog, request: BlogRequest, now: Instant)
    ensures (BackendBlogService.Updated(blog, request, now).(updatedAt := blog.updatedAt) == Overwritten(blog, request))
        <==> ((BackendBlogService.Supplied(request.title) || request.title == blog.title)
              && (BackendBlogService.Supplied(request.content) || request.content == blog.content))
  {
    var b := BackendBlogService.Updated(blog, request, now).(updatedAt := blog.updatedAt);
    var o := Overwritten(blog, request);
    if b == o {
      assert b.title == o.title && b.content == o.content;
    }
  }

  /** No blog in the store has an update stamp. */
  ghost predicate NeverStamped(blogs: map<string, Blog>) {
    forall id :: id in blogs ==> blogs[id].updatedAt == None
  }

  class BlogService {
    /** The blog repository, by blog id. */
    var blogs: map<string, Blog>
    /** The user repository, by user id. */
    var users: map<string, User>

    /** Besides the keying of both repositories: since nothing in this
        service sets `updatedAt`, no stored blog ever carries one. */
    ghost predicate Valid()
      reads this
    {
      BlogsKeyedById(blogs) && UsersKeyedById(users) && NeverStamped(blogs)
    }

    constructor (users: map<string, User>)
      requires UsersKeyedById(users)
      ensures Valid() && blogs == map[] && this.users == users
    {
      this.blogs := map[];
      this.users := users;
    }

    /** `createBlog`: saved before the author is looked up. */
    method CreateBlog(request: BlogRequest, userId: string, now: Instant, freshId: string)
      returns (r: Result<BlogResponse, Exception>)
      requires Valid() && freshId !in blogs
      modifies this
      ensures Valid() && users == old(users)
      ensures blogs == old(blogs)[freshId := Blog(freshId, userId, request.title, request.content, now, None)]
      ensures userId in users ==> r == Success(FromEntity(blogs[freshId], users[userId].name))
      ensures userId !in users ==> r == Failure(Runtime("User not found"))
    {
      var blog := Blog(freshId, userId, request.title, request.content, now, None);
      blogs := blogs[freshId := blog];
      if userId !in users {
        return Failure(Runtime("User not found"));
      }
      r := Success(FromEntity(blog, users[userId].name));
    }

    /** `getAllBlogs(page, size)` over the repository order `order`. */
    method GetAllBlogs(page: int, size: int, order: seq<string>)
      returns (r: Result<Page<BlogResponse>, Exception>)
      requires Valid() && BackendBlogService.Enumerates(order, blogs)
      ensures page < 0 || size < 1 ==> r == Failure(InvalidPageRequest)
      ensures page >= 0 && size >= 1 ==>
        var ids := PageOf(order, page, size);
        && (r.Success? <==> forall i :: 0 <= i < |ids| ==> blogs[ids[i]].userId in users)
        && (r.Failure? ==> r.error == Runtime("User not found"))
        && (r.Success? ==>
              && r.value.number == page && r.value.size == size && r.value.totalElements == |order|
              && |r.value.content| == |ids|
              && forall i :: 0 <= i < |ids| ==>
                   r.value.content[i] == FromEntity(blogs[ids[i]], users[blogs[ids[i]].userId].name))
    {
      if page < 0 || size < 1 {
        return Failure(InvalidPageRequest);
      }
      var ids := PageOf(order, page, size);
      var responses := BackendBlogService.Responses(ids, blogs, users);
      match responses
      case Failure(e) =>
        r := Failure(e);
      case Success(content) =>
        r := Success(Page(content, page, size, |order|));
    }

    /** `getBlogById`. */
    method GetBlogById(blogId: string) returns (r: Result<BlogResponse, Exception>)
      requires Valid()
      ensures blogId !in blogs ==> r == Failure(Runtime("Blog not found"))
      ensures blogId in blogs && blogs[blogId].userId !in users ==> r == Failure(Runtime("User not found"))
      ensures blogId in blogs && blogs[blogId].userId in users ==>
        r == Success(FromEntity(blogs[blogId], users[blogs[blogId].userId].name))
    {
      if blogId !in blogs {
        return Failure(Runtime("Blog not found"));
      }
      var blog := blogs[blogId];
      if blog.userId !in users {
        return Failure(Runtime("User not found"));
      }
      r := Success(FromEntity(blog, users[blog.userId].name));
    }

    /** `updateBlog`: the owner's call overwrites title and content and
        saves before the caller's name is looked up; a missing blog or
        another caller raises and changes nothing. */
    method UpdateBlog(blogId: string, request: BlogRequest, userId: string)
      returns (r: Result<BlogResponse, Exception>)
      requires Valid()
      modifies this
      ensures Valid() && users == old(users)
      ensures blogId !in old(blogs) ==> r == Failure(Runtime("Blog not found")) && blogs == old(blogs)
      ensures blogId in old(blogs) && old(blogs)[blogId].userId != userId ==>
        r == Failure(Runtime("You are not allowed to edit this blog")) && blogs == old(blogs)
      ensures blogId in old(blogs) && old(blogs)[blogId].userId == userId ==>
        && blogs == old(blogs)[blogId := Overwritten(old(blogs)[blogId], request)]
        && (userId in users ==> r == Success(FromEntity(blogs[blogId], users[userId].name)))
        && (userId !in users ==> r == Failure(Runtime("User not found")))
    {
      if blogId !in blogs {
        return Failure(Runtime("Blog not found"));
      }
      var blog := blogs[blogId];
      if blog.userId != userId {
        return Failure(Runtime("You are not allowed to edit this blog"));
      }
      blog := blog.(title := request.title);
      blog := blog.(content := request.content);
      blogs := blogs[blogId := blog];
      if userId !in users {
        return Failure(Runtime("User not found"));
      }
      r := Success(FromEntity(blog, users[userId].name));
    }

    /** `deleteBlog`: the owner's call removes exactly that blog; a missing
        blog or another caller raises and changes nothing. */
    method DeleteBlog(blogId: string, userId: string) returns (r: Result<(), Exception>)
      requires Valid()
      modifies this
      ensures Valid() && users == old(users)
      ensures blogId !in old(blogs) ==> r == Failure(Runtime("Blog not found")) && blogs == old(blogs)
      ensures blogId in old(blogs) && old(blogs)[blogId].userId != userId ==>
        r == Failure(Runtime("You are not allowed to delete this blog")) && blogs == old(blogs)
      ensures blogId in old(blogs) && old(blogs)[blogId].userId == userId ==>
        r == Success(()) && blogs == old(blogs) - {blogId}
    {
      if blogId !in blogs {
        return Failure(Runtime("Blog not found"));
      }
      var blog := blogs[blogId];
      if blog.userId != userId {
        return Failure(Runtime("You are not allowed to delete this blog"));
      }
      blogs := blogs - {blog.id};
      r := Success(());
    }
  }
}
