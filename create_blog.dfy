/** The create page: the form, its checks, and the request that publishes
    the post. */
module CreateBlog {
  import opened Wrappers
  import opened PageEffects
  import opened BlogForm
  import AuthContext

  /** The storage key this page reads its token from. */
  const TokenKey := "token"
  const CreateUrl := "/blogs"
  const CreateFailed := "Failed to create your blog. Try again."
  const Created := Toast("Blog created!", "Your blog post has been successfully created.", false)

  /** The request that publishes a form: a POST of the form as typed,
      carrying the token. */
  function Publish(form: Form, token: string): Call {
    Call(HttpPost, CreateUrl, Some(form), Some(Bearer(token)))
  }

  /** What `handleSubmit` does with a form, the storage it reads the token
      from and the answer to the request it may send. A form the checks
      reject gets that check's toast and nothing is sent. Without a truthy
      'token' entry nothing is sent and the generic failure toast is shown.
      Otherwise the form is posted as typed, untrimmed: success confirms and
      goes to the dashboard, failure shows the server's message or the
      generic one. Exactly one toast is shown and at most one request sent. */
  function Submitted(form: Form, storage: map<string, string>, response: Response<()>): (e: Effect)
    ensures |e.toasts| == 1 && |e.calls| <= 1
    ensures |e.calls| == 1 <==> Complete(form) && AuthContext.Truthy(storage, TokenKey)
    ensures |e.calls| == 1 ==> e.calls[0] == Publish(form, storage[TokenKey])
    ensures e.navigate.Some? <==> |e.calls| == 1 && response.Success?
    ensures e.navigate.Some? ==> e.navigate == Some("/dashboard") && e.toasts == [Created]
    ensures !Complete(form) ==> e.toasts == [Toast("Error", CreateCheck(form).value, true)]
    ensures Complete(form) && !AuthContext.Truthy(storage, TokenKey) ==> e.toasts == [ErrorToast(None, CreateFailed)]
    ensures |e.calls| == 1 && response.Failure? ==> e.toasts == [ErrorToast(response.error, CreateFailed)]
  {
    var check := CreateCheck(form);
    if check.Some? then Effect([Toast("Error", check.value, true)], [], None)
    else if !AuthContext.Truthy(storage, TokenKey) then Effect([ErrorToast(None, CreateFailed)], [], None)
    else if response.Success? then Effect([Created], [Publish(form, storage[TokenKey])], Some("/dashboard"))
    else Effect([ErrorToast(response.error, CreateFailed)], [Publish(form, storage[TokenKey])], None)
  }

  /** The page's state: the form, the publishing flag, the toasts shown so
      far, where `navigate` has sent the browser, and the requests sent. */
  class CreateBlogPage {
    var form: Form
    var isLoading: bool
    var toasts: seq<Toast>
    var location: Option<string>
    var calls: seq<Call>

    /** The initial render: an empty form, not publishing. */
    constructor ()
      ensures form == Form("", "") && !isLoading && toasts == [] && location == None && calls == []
    {
      form := Form("", "");
      isLoading := false;
      toasts := [];
      location := None;
      calls := [];
    }

    /** `handleChange`: the named field takes the typed value. */
    method HandleChange(field: Field, value: string)
      modifies this
      ensures form == WithField(old(form), field, value)
      ensures isLoading == old(isLoading) && toasts == old(toasts) && location == old(location) && calls == old(calls)
    {
      form := WithField(form, field, value);
    }

    /** `handleSubmit`: the effect of `Submitted`; publishing has ended
        whenever the checks passed, and is untouched when they failed. */
    method HandleSubmit(storage: map<string, string>, response: Response<()>)
      modifies this
      ensures var e := Submitted(old(form), storage, response);
        && toasts == old(toasts) + e.toasts
        && calls == old(calls) + e.calls
        && location == Navigated(old(location), e)
      ensures form == old(form)
      ensures isLoading == (old(isLoading) && !Complete(form))
    {
      var check := CreateCheck(form);
      if check.Some? {
        toasts := toasts + [Toast("Error", check.value, true)];
        return;
      }
      isLoading := true;
      if !AuthContext.Truthy(storage, TokenKey) {
        toasts := toasts + [ErrorToast(None, CreateFailed)];
      } else {
        calls := calls + [Publish(form, storage[TokenKey])];
        if response.Success? {
          toasts := toasts + [Created];
          location := Some("/dashboard");
        } else {
          toasts := toasts + [ErrorToast(response.error, CreateFailed)];
        }
      }
      isLoading := false;
    }
  }

  /** The session the sign-in writes never supplies this page's token:
      with no 'token' entry beforehand, a signed-in user's complete form is
      never sent and gets the generic failure toast. */
  lemma SignedInCannotPublish(storage: map<string, string>, token: string, user: string, form: Form, response: Response<()>)
    requires TokenKey !in storage && Complete(form)
    ensures Submitted(form, AuthContext.Persisted(storage, token, user), response)
         == Effect([ErrorToast(None, CreateFailed)], [], None)
  {
    AuthContext.SessionTouchesOnlyItsKeys(storage, token, user, TokenKey);
  }
}
