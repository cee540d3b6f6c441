/** The edit page: loading the post into the form, and saving the form
    back. */
module EditBlog {
  import opened Wrappers
  import opened PageEffects
  import opened BlogForm
  import AuthContext

  /** The storage key this page reads its token from. */
  const TokenKey := "authToken"
  const LoadFailed := "Failed to load blog post."
  const UpdateFailed := "Failed to update blog."
  const Updated := Toast("Blog updated!", "Your blog post has been successfully updated.", false)
  const Dashboard := "/dashboard"

  /** The record the page loads. */
  datatype EditedBlog = EditedBlog(id: string, title: string, content: string)

  /** The URL of one post on the API server. */
  function BlogUrl(id: string): string {
    "http://localhost:8080/api/blogs/" + id
  }

  /** The request that fetches the post. */
  function Fetch(id: string, token: string): Call {
    Call(HttpGet, BlogUrl(id), None, Some(Bearer(token)))
  }

  /** The request that saves the form as typed. */
  function Save(id: string, form: Form, token: string): Call {
    Call(HttpPatch, BlogUrl(id), Some(form), Some(Bearer(token)))
  }

  /** What `loadBlog` does besides filling the form: without a truthy
      'authToken' entry nothing is fetched; every failure, that one
      included, shows the server's message or the generic one and goes back
      to the dashboard; a success shows nothing and stays. */
  function Loaded(id: string, storage: map<string, string>, response: Response<EditedBlog>): (e: Effect)
    ensures |e.calls| == 1 <==> AuthContext.Truthy(storage, TokenKey)
    ensures |e.calls| <= 1 && (|e.calls| == 1 ==> e.calls[0] == Fetch(id, storage[TokenKey]))
    ensures e.navigate.None? <==> |e.calls| == 1 && response.Success?
    ensures e.navigate.None? ==> e.toasts == []
    ensures e.navigate.Some? ==> e.navigate == Some(Dashboard) && |e.toasts| == 1
    ensures !AuthContext.Truthy(storage, TokenKey) ==> e.toasts == [ErrorToast(None, LoadFailed)]
    ensures |e.calls| == 1 && response.Failure? ==> e.toasts == [ErrorToast(response.error, LoadFailed)]
  {
    if !AuthContext.Truthy(storage, TokenKey) then Effect([ErrorToast(None, LoadFailed)], [], Some(Dashboard))
    else if response.Success? then Effect([], [Fetch(id, storage[TokenKey])], None)
    else Effect([ErrorToast(response.error, LoadFailed)], [Fetch(id, storage[TokenKey])], Some(Dashboard))
  }

  /** What `handleSubmit` does: an incomplete form gets the one combined
      message and nothing is sent; without a truthy 'authToken' entry the
      generic failure toast is shown; otherwise the form is sent as typed,
      and success confirms and goes to the dashboard while failure shows the
      server's message or the generic one. */
  function Submitted(id: string, form: Form, storage: map<string, string>, response: Response<()>): (e: Effect)
    ensures |e.toasts| == 1 && |e.calls| <= 1
    ensures |e.calls| == 1 <==> Complete(form) && AuthContext.Truthy(storage, TokenKey)
    ensures |e.calls| == 1 ==> e.calls[0] == Save(id, form, storage[TokenKey])
    ensures e.navigate.Some? <==> |e.calls| == 1 && response.Success?
    ensures e.navigate.Some? ==> e.navigate == Some(Dashboard) && e.toasts == [Updated]
    ensures !Complete(form) ==> e.toasts == [Toast("Error", MissingEither, true)]
    ensures Complete(form) && !AuthContext.Truthy(storage, TokenKey) ==> e.toasts == [ErrorToast(None, UpdateFailed)]
    ensures |e.calls| == 1 && response.Failure? ==> e.toasts == [ErrorToast(response.error, UpdateFailed)]
  {
    var check := EditCheck(form);
    if check.Some? then Effect([Toast("Error", check.value, true)], [], None)
    else if !AuthContext.Truthy(storage, TokenKey) then Effect([ErrorToast(None, UpdateFailed)], [], None)
    else if response.Success? then Effect([Updated], [Save(id, form, storage[TokenKey])], Some(Dashboard))
    else Effect([ErrorToast(response.error, UpdateFailed)], [Save(id, form, storage[TokenKey])], None)
  }

  /** The page for the post with route parameter `id`: the loaded post, the
      form, the two busy flags, the toasts shown so far, where `navigate`
      has sent the browser, and the requests sent. */
  class EditBlogPage {
    const id: string
    var blog: Option<EditedBlog>
    var form: Form
    var isLoading: bool
    var isSaving: bool
    var toasts: seq<Toast>
    var location: Option<string>
    var calls: seq<Call>

    /** The initial render: nothing loaded, an empty form, loading. */
    constructor (id: string)
      ensures this.id == id && blog == None && form == Form("", "") && isLoading && !isSaving
      ensures toasts == [] && location == None && calls == []
    {
      this.id := id;
      blog := None;
      form := Form("", "");
      isLoading := true;
      isSaving := false;
      toasts := [];
      location := None;
      calls := [];
    }

    /** `loadBlog`: the effect of `Loaded`; on success the post is kept and
        the form takes its title and content, otherwise both stay. Loading
        ends either way. */
    method LoadBlog(storage: map<string, string>, response: Response<EditedBlog>)
      modifies this
      ensures var e := Loaded(id, storage, response);
        && toasts == old(toasts) + e.toasts
        && calls == old(calls) + e.calls
        && location == Navigated(old(location), e)
      ensures AuthContext.Truthy(storage, TokenKey) && response.Success? ==>
        blog == Some(response.value) && form == Form(response.value.title, response.value.content)
      ensures !(AuthContext.Truthy(storage, TokenKey) && response.Success?) ==>
        blog == old(blog) && form == old(form)
      ensures !isLoading && isSaving == old(isSaving)
    {
      isLoading := true;
      if !AuthContext.Truthy(storage, TokenKey) {
        toasts := toasts + [ErrorToast(None, LoadFailed)];
        location := Some(Dashboard);
      } else {
        calls := calls + [Fetch(id, storage[TokenKey])];
        if response.Success? {
          blog := Some(response.value);
          form := Form(response.value.title, response.value.content);
        } else {
          toasts := toasts + [ErrorToast(response.error, LoadFailed)];
          location := Some(Dashboard);
        }
      }
      isLoading := false;
    }

    /** The mount effect: the post is loaded when the route has an id. */
    method Mount(storage: map<string, string>, response: Response<EditedBlog>)
      modifies this
      ensures id == [] ==>
        blog == old(blog) && form == old(form) && isLoading == old(isLoading)
        && toasts == old(toasts) && calls == old(calls) && location == old(location)
      ensures id != [] ==>
        var e := Loaded(id, storage, response);
        && toasts == old(toasts) + e.toasts
        && calls == old(calls) + e.calls
        && location == Navigated(old(location), e)
      ensures id != [] && AuthContext.Truthy(storage, TokenKey) && response.Success? ==>
        blog == Some(response.value) && form == Form(response.value.title, response.value.content)
      ensures id != [] && !(AuthContext.Truthy(storage, TokenKey) && response.Success?) ==>
        blog == old(blog) && form == old(form)
      ensures id != [] ==> !isLoading
      ensures isSaving == old(isSaving)
    {
      if id != [] {
        LoadBlog(storage, response);
      }
    }

    /** `handleChange`: the named field takes the typed value. */
    method HandleChange(field: Field, value: string)
      modifies this
      ensures form == WithField(old(form), field, value)
      ensures blog == old(blog) && isLoading == old(isLoading) && isSaving == old(isSaving)
      ensures toasts == old(toasts) && location == old(location) && calls == old(calls)
    {
      form := WithField(form, field, value);
    }

    /** `handleSubmit`: the effect of `Submitted`; saving has ended whenever
        the check passed, and is untouched when it failed. */
    method HandleSubmit(storage: map<string, string>, response: Response<()>)
      modifies this
      ensures var e := Submitted(id, old(form), storage, response);
        && toasts == old(toasts) + e.toasts
        && calls == old(calls) + e.calls
        && location == Navigated(old(location), e)
      ensures form == old(form) && blog == old(blog) && isLoading == old(isLoading)
      ensures isSaving == (old(isSaving) && !Complete(form))
    {
      var check := EditCheck(form);
      if check.Some? {
        toasts := toasts + [Toast("Error", check.value, true)];
        return;
      }
      isSaving := true;
      if !AuthContext.Truthy(storage, TokenKey) {
        toasts := toasts + [ErrorToast(None, UpdateFailed)];
      } else {
        calls := calls + [Save(id, form, storage[TokenKey])];
        if response.Success? {
          toasts := toasts + [Updated];
          location := Some(Dashboard);
        } else {
          toasts := toasts + [ErrorToast(response.error, UpdateFailed)];
        }
      }
      isSaving := false;
    }
  }

  /** Saving straight after a load sends the loaded title and content back
      unchanged, provided neither is blank. */
  method LoadThenSave(page: EditBlogPage, storage: map<string, string>, loaded: EditedBlog, response: Response<()>)
    requires AuthContext.Truthy(storage, TokenKey) && Complete(Form(loaded.title, loaded.content))
    modifies page
    ensures page.calls == old(page.calls)
      + [Fetch(page.id, storage[TokenKey]), Save(page.id, Form(loaded.title, loaded.content), storage[TokenKey])]
  {
    page.LoadBlog(storage, Success(loaded));
    page.HandleSubmit(storage, response);
  }

  /** The session the sign-in writes never supplies this page's token:
      with no 'authToken' entry beforehand, a signed-in user is sent back
      to the dashboard without the post being fetched. */
  lemma SignedInCannotLoad(storage: map<string, string>, token: string, user: string, id: string,
                           response: Response<EditedBlog>)
    requires TokenKey !in storage
    ensures Loaded(id, AuthContext.Persisted(storage, token, user), response)
         == Effect([ErrorToast(None, LoadFailed)], [], Some(Dashboard))
  {
    AuthContext.SessionTouchesOnlyItsKeys(storage, token, user, TokenKey);
  }

  /** Nor can such a user save a complete form: nothing is sent. */
  lemma SignedInCannotSave(storage: map<string, string>, token: string, user: string, id: string,
                           form: Form, response: Response<()>)
    requires TokenKey !in storage && Complete(form)
    ensures Submitted(id, form, AuthContext.Persisted(storage, token, user), response)
         == Effect([ErrorToast(None, UpdateFailed)], [], None)
  {
    AuthContext.SessionTouchesOnlyItsKeys(storage, token, user, TokenKey);
  }
}
