/** What the pages show besides their own state: toast notifications and
    the error text of a failed request. */
module PageEffects {
  import opened Wrappers
  import opened BlogForm

  /** A toast: its title, its description and whether it uses the
      destructive (error) variant. */
  datatype Toast = Toast(title: string, description: string, destructive: bool)

  /** The outcome of an HTTP call the page awaits: the response body, or
      the `message` of the error response body when there is one (None when
      the error carries no response, such as the 'Unauthorized' error a page
      throws itself). */
  type Response<T> = Result<T, Option<string>>

  /** `value || fallback` for a string that may be missing: a present,
      non-empty value wins; a missing or empty one (both falsy) gives the
      fallback. */
  function Or(value: Option<string>, fallback: string): (text: string)
    ensures value.Some? && value.value != [] ==> text == value.value
    ensures value.None? || value.value == [] ==> text == fallback
    ensures fallback != [] ==> text != []
  {
    if value.Some? && value.value != [] then value.value else fallback
  }

  /** The destructive toast a failed request shows: the server's message
      or, failing that, the page's fallback text. */
  function ErrorToast(message: Option<string>, fallback: string): (t: Toast)
    ensures t.destructive && t.title == "Error"
    ensures message.Some? && message.value != [] ==> t.description == message.value
    ensures message.None? || message.value == [] ==> t.description == fallback
  {
    Toast("Error", Or(message, fallback), true)
  }

  datatype Verb = HttpGet | HttpPost | HttpPatch | HttpDelete

  /** A request a page sends: the verb, the URL as written in the page, the
      form body when there is one, and the `Authorization` header (None when
      the request carries none). */
  datatype Call = Call(verb: Verb, url: string, body: Option<Form>, authorization: Option<string>)

  /** `Bearer ${token}`. */
  function Bearer(token: string): string {
    "Bearer " + token
  }

  /** What one handler run does besides updating the page's own fields:
      the toasts it shows, the requests it sends, and where it navigates
      (None when it stays). */
  datatype Effect = Effect(toasts: seq<Toast>, calls: seq<Call>, navigate: Option<string>)

  /** The location after an effect. */
  function Navigated(location: Option<string>, e: Effect): Option<string> {
    if e.navigate.Some? then e.navigate else location
  }
}
