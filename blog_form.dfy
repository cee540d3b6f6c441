/** The post form the create and edit pages share: its two fields, the
    field update of `handleChange`, the checks each page makes before
    sending, and the requests the pages send. */
module BlogForm {
  import opened Wrappers
  import opened Strings
  import JsText

  /** `formData`. */
  datatype Form = Form(title: string, content: string)

  /** The `name` of the input that changed. */
  datatype Field = Title | Content

  /** `{ ...prev, [name]: value }`. */
  function WithField(form: Form, field: Field, value: string): (r: Form)
    ensures field == Title ==> r.title == value && r.content == form.content
    ensures field == Content ==> r.content == value && r.title == form.title
  {
    match field
    case Title => form.(title := value)
    case Content => form.(content := value)
  }

  /** The last change to a field is the one that counts, and changes to
      different fields do not interfere. */
  lemma WithFieldLastWins(form: Form, field: Field, v1: string, v2: string)
    ensures WithField(WithField(form, field, v1), field, v2) == WithField(form, field, v2)
  {
  }

  lemma WithFieldCommutes(form: Form, f1: Field, f2: Field, v1: string, v2: string)
    requires f1 != f2
    ensures WithField(WithField(form, f1, v1), f2, v2) == WithField(WithField(form, f2, v2), f1, v1)
  {
  }

  /** Typing a field's current value back in changes nothing. */
  lemma WithFieldUnchanged(form: Form)
    ensures WithField(form, Title, form.title) == form
    ensures WithField(form, Content, form.content) == form
  {
  }

  const MissingTitle := "Please enter a title for your blog post."
  const MissingContent := "Please write some content for your blog post."
  const MissingEither := "Title and content cannot be empty."

  /** Both fields hold something other than whitespace. */
  predicate Complete(form: Form) {
    !JsText.IsBlank(form.title) && !JsText.IsBlank(form.content)
  }

  /** The create page's checks, in order: the title first, then the
      content. None when the form may be sent. */
  function CreateCheck(form: Form): (error: Option<string>)
    ensures error.None? <==> Complete(form)
    ensures JsText.IsBlank(form.title) ==> error == Some(MissingTitle)
    ensures !JsText.IsBlank(form.title) && JsText.IsBlank(form.content) ==> error == Some(MissingContent)
  {
    if JsText.IsBlank(form.title) then Some(MissingTitle)
    else if JsText.IsBlank(form.content) then Some(MissingContent)
    else None
  }

  /** The edit page's single check of both fields. */
  function EditCheck(form: Form): (error: Option<string>)
    ensures error.None? <==> Complete(form)
    ensures error.Some? ==> error == Some(MissingEither)
  {
    if JsText.IsBlank(form.title) || JsText.IsBlank(form.content) then Some(MissingEither) else None
  }

  /** The two pages accept the same forms; they differ only in the message
      that rejects one. */
  lemma ChecksAgree(form: Form)
    ensures CreateCheck(form).None? <==> EditCheck(form).None?
  {
  }

  /** The check looks at trimmed fields but the form is sent as typed:
      padding a complete form keeps it complete. */
  lemma PaddingKeepsComplete(form: Form, pad: string)
    requires Complete(form)
    ensures Complete(Form(pad + form.title + pad, pad + form.content + pad))
  {
    NotBlankPadded(form.title, pad);
    NotBlankPadded(form.content, pad);
  }

  lemma NotBlankPadded(s: string, pad: string)
    requires !JsText.IsBlank(s)
    ensures !JsText.IsBlank(pad + s + pad)
  {
    var i :| 0 <= i < |s| && !JsText.IsWhitespace(s[i]);
    var padded := pad + s + pad;
    assert padded[|pad| + i] == s[i];
  }
}
