/** The reading page: loading one post, and the line-by-line formatting of
    its content into headings, list items, spacers and paragraphs. */
module ViewBlog {
  import opened Wrappers
  import opened Strings
  import opened PageEffects
  import JsText
  import AuthContext

  /** The storage key this page reads its token from. */
  const TokenKey := "authToken"
  const LoadFailed := "Failed to load blog post."

  /** The record the page loads; a missing update stamp is None. */
  datatype ViewedBlog = ViewedBlog(id: string, title: string, content: string, createdAt: string, updatedAt: Option<string>)

  /** `blog.updatedAt !== blog.createdAt`: the "Updated" line. */
  predicate ShowsUpdated(b: ViewedBlog) {
    b.updatedAt != Some(b.createdAt)
  }

  /** Unlike the dashboard, this page does not fall back to the creation
      stamp: a record without an update stamp is shown as updated. */
  lemma AbsentStampShowsUpdated(b: ViewedBlog)
    requires b.updatedAt.None?
    ensures ShowsUpdated(b)
  {
  }

  /** The URL of one post on the API server. */
  function BlogUrl(id: string): string {
    "http://localhost:8080/api/blogs/" + id
  }

  /** The request that fetches the post. */
  function Fetch(id: string, token: string): Call {
    Call(HttpGet, BlogUrl(id), None, Some(Bearer(token)))
  }

  /** What `loadBlog` does besides keeping the post: without a truthy
      'authToken' entry nothing is fetched; every failure, that one
      included, shows the server's message or the generic one; a success
      shows nothing. The page never navigates. */
  function Loaded(id: string, storage: map<string, string>, response: Response<ViewedBlog>): (e: Effect)
    ensures e.navigate.None? && |e.calls| <= 1
    ensures |e.calls| == 1 <==> AuthContext.Truthy(storage, TokenKey)
    ensures |e.calls| == 1 ==> e.calls[0] == Fetch(id, storage[TokenKey])
    ensures e.toasts == [] <==> |e.calls| == 1 && response.Success?
    ensures !AuthContext.Truthy(storage, TokenKey) ==> e.toasts == [ErrorToast(None, LoadFailed)]
    ensures |e.calls| == 1 && response.Failure? ==> e.toasts == [ErrorToast(response.error, LoadFailed)]
  {
    if !AuthContext.Truthy(storage, TokenKey) then Effect([ErrorToast(None, LoadFailed)], [], None)
    else if response.Success? then Effect([], [Fetch(id, storage[TokenKey])], None)
    else Effect([ErrorToast(response.error, LoadFailed)], [Fetch(id, storage[TokenKey])], None)
  }

  /** The session the sign-in writes never supplies this page's token:
      with no 'authToken' entry beforehand, the post is never fetched. */
  lemma SignedInCannotRead(storage: map<string, string>, token: string, user: string, id: string,
                           response: Response<ViewedBlog>)
    requires TokenKey !in storage
    ensures Loaded(id, AuthContext.Persisted(storage, token, user), response)
         == Effect([ErrorToast(None, LoadFailed)], [], None)
  {
    AuthContext.SessionTouchesOnlyItsKeys(storage, token, user, TokenKey);
  }

  /** How one line of content is shown. */
  datatype Block =
    | H2(text: string)
    | H3(text: string)
    | Spacer
    | Bullet(text: string)
    | Numbered(marker: string, text: string)
    | Paragraph(text: string)

  /** The length of the longest prefix of ASCII digits (`\d`). */
  function LeadingDigits(s: string): (n: nat)
    ensures n <= |s| && All(s[..n], IsDigit)
    ensures n < |s| ==> !IsDigit(s[n])
  {
    if s != [] && IsDigit(s[0]) then
      var n := 1 + LeadingDigits(s[1..]);
      assert s[..n] == [s[0]] + s[1..][..n - 1];
      n
    else 0
  }

  /** `/^\d+\./`: one or more digits, then a full stop. */
  predicate StartsNumbered(s: string) {
    var n := LeadingDigits(s);
    0 < n < |s| && s[n] == '.'
  }

  /** The page's test for a numbered item: the trimmed line matches
      `/^\d+\./` and so does the line itself. */
  predicate NumberedLine(line: string) {
    StartsNumbered(JsText.Trim(line)) && StartsNumbered(line)
  }

  /** What `(.*)` matches: the longest prefix without a line terminator. */
  function UpToLineTerminator(s: string): (r: string)
    ensures StartsWith(s, r)
    ensures forall i :: 0 <= i < |r| ==> !JsText.IsLineTerminator(r[i])
    ensures |r| < |s| ==> JsText.IsLineTerminator(s[|r|])
  {
    if s == [] || JsText.IsLineTerminator(s[0]) then []
    else [s[0]] + UpToLineTerminator(s[1..])
  }

  /** A string without a line terminator is matched whole. */
  lemma {:induction false} UpToLineTerminatorWhole(s: string)
    requires forall i :: 0 <= i < |s| ==> !JsText.IsLineTerminator(s[i])
    ensures UpToLineTerminator(s) == s
  {
    if s != [] {
      assert forall i :: 0 <= i < |s[1..]| ==> s[1..][i] == s[i + 1];
      UpToLineTerminatorWhole(s[1..]);
    }
  }

  /** The match of `^(\d+\.\s*)(.*)` on a line that starts with digits and a
      full stop: the marker is the digits, the full stop and the whitespace
      after it, and the text is what follows, up to the first line
      terminator. */
  function NumberedItem(line: string): (b: Block)
    requires StartsNumbered(line)
    ensures b.Numbered? && StartsWith(line, b.marker)
    ensures var n := LeadingDigits(line);
      && |b.marker| > n
      && All(b.marker[..n], IsDigit)
      && b.marker[n] == '.'
      && All(b.marker[n + 1..], JsText.IsWhitespace)
    ensures |b.marker| < |line| ==> !JsText.IsWhitespace(line[|b.marker|])
    ensures b.text == UpToLineTerminator(line[|b.marker|..])
  {
    var n := LeadingDigits(line);
    var k := WhitespaceEnd(line, n + 1);
    assert line[..k][..n] == line[..n];
    assert line[..k][n + 1..] == line[n + 1..k];
    Numbered(line[..k], UpToLineTerminator(line[k..]))
  }

  /** Where `\s*` ends when it starts matching at index `i` of `s`: after the
      run of whitespace there. */
  function WhitespaceEnd(s: string, i: nat): (k: nat)
    requires i <= |s|
    ensures i <= k <= |s|
    ensures forall j :: i <= j < k ==> JsText.IsWhitespace(s[j])
    ensures k < |s| ==> !JsText.IsWhitespace(s[k])
    decreases |s| - i
  {
    if i < |s| && JsText.IsWhitespace(s[i]) then WhitespaceEnd(s, i + 1) else i
  }

  /** One line of `formatContent`, the tests taken in the page's order:
      '## ' and '### ' headings, a whitespace-only spacer, a '- ' bullet, a
      numbered item (`NumberedLine`, then `NumberedItem`), and otherwise a
      paragraph of the whole line. */
  function ClassifyLine(line: string): (b: Block)
    ensures b.Spacer? <==> JsText.IsBlank(line)
  {
    if StartsWith(line, "## ") then
      assert line[0] == '#';
      H2(line[3..])
    else if StartsWith(line, "### ") then
      assert line[0] == '#';
      H3(line[4..])
    else if JsText.IsBlank(line) then Spacer
    else if StartsWith(line, "- ") then Bullet(line[2..])
    else if NumberedLine(line) then NumberedItem(line)
    else Paragraph(line)
  }

  /** `content.split('\n').map(...)`: one block per line. */
  function FormatContent(content: string): (blocks: seq<Block>)
    ensures |blocks| == |Split(content, '\n')|
    ensures forall k :: 0 <= k < |blocks| ==> blocks[k] == ClassifyLine(Split(content, '\n')[k])
  {
    var lines := Split(content, '\n');
    seq(|lines|, k requires 0 <= k < |lines| => ClassifyLine(lines[k]))
  }

  /** There is one block per newline plus one. */
  lemma FormatContentCount(content: string)
    ensures |FormatContent(content)| == Count(content, '\n') + 1
  {
    SplitCount(content, '\n');
  }

  /** Trimming keeps a leading numbered marker: the line's own start is not
      whitespace and the full stop survives the trailing trim. */
  lemma TrimKeepsNumbered(line: string)
    requires StartsNumbered(line)
    ensures StartsNumbered(JsText.Trim(line))
  {
    var n := LeadingDigits(line);
    var t := TrimStartBy(line, JsText.IsWhitespace);
    assert t == line;
    var u := TrimEndBy(t, JsText.IsWhitespace);
    TrimEndDropped(t, JsText.IsWhitespace);
    assert !JsText.IsWhitespace(line[n]);
    assert u[..n + 1] == line[..n + 1];
    LeadingDigitsPrefix(line, u);
  }

  /** A prefix that reaches past the leading digits has the same ones. */
  lemma {:induction false} LeadingDigitsPrefix(s: string, p: string)
    requires StartsWith(s, p) && |p| > LeadingDigits(s)
    ensures LeadingDigits(p) == LeadingDigits(s)
  {
    if s != [] && IsDigit(s[0]) {
      assert p[0] == s[0];
      assert StartsWith(s[1..], p[1..]) by {
        assert s[1..][..|p| - 1] == p[1..];
      }
      LeadingDigitsPrefix(s[1..], p[1..]);
    }
  }

  /** The trimmed-line test never decides on its own: the page's numbered
      test holds exactly when the line itself starts with digits and a
      full stop. */
  lemma NumberedLineIff(line: string)
    ensures NumberedLine(line) <==> StartsNumbered(line)
  {
    if StartsNumbered(line) {
      TrimKeepsNumbered(line);
    }
  }

  /** A line is a numbered item exactly when it starts with digits and a
      full stop, so an indented number is not one. */
  lemma NumberedIff(line: string)
    ensures ClassifyLine(line).Numbered? <==> StartsNumbered(line)
    ensures StartsNumbered(line) ==> ClassifyLine(line) == NumberedItem(line)
  {
    NumberedLineIff(line);
    if StartsNumbered(line) {
      assert line[0] == line[..LeadingDigits(line)][0];
      DigitLineUnmarked(line);
    }
  }

  /** A line that starts with a digit is neither a heading, nor a bullet,
      nor blank. */
  lemma DigitLineUnmarked(line: string)
    requires |line| > 0 && IsDigit(line[0])
    ensures !StartsWith(line, "## ") && !StartsWith(line, "### ") && !StartsWith(line, "- ")
    ensures !JsText.IsBlank(line)
  {
    assert !JsText.IsWhitespace(line[0]);
  }

  /** The headings and the bullets: a line is an `H2`, an `H3` or a bullet
      exactly when it starts with '## ', '### ' or '- ', and the block keeps
      what follows the marker. */
  lemma MarkedIff(line: string)
    ensures ClassifyLine(line).H2? <==> StartsWith(line, "## ")
    ensures ClassifyLine(line).H3? <==> StartsWith(line, "### ")
    ensures ClassifyLine(line).Bullet? <==> StartsWith(line, "- ")
    ensures StartsWith(line, "## ") ==> ClassifyLine(line) == H2(line[3..])
    ensures StartsWith(line, "### ") ==> ClassifyLine(line) == H3(line[4..])
    ensures StartsWith(line, "- ") ==> ClassifyLine(line) == Bullet(line[2..])
  {
    if StartsWith(line, "### ") {
      assert line[2] == '#';
    }
    if StartsWith(line, "- ") {
      assert line[0] == '-' && !JsText.IsWhitespace(line[0]);
    }
  }

  /** Every other line that is not blank and does not start with digits and
      a full stop is a paragraph of the whole line. */
  lemma ParagraphIff(line: string)
    ensures ClassifyLine(line).Paragraph? <==>
      && !StartsWith(line, "## ") && !StartsWith(line, "### ") && !StartsWith(line, "- ")
      && !JsText.IsBlank(line) && !StartsNumbered(line)
    ensures ClassifyLine(line).Paragraph? ==> ClassifyLine(line) == Paragraph(line)
  {
    NumberedLineIff(line);
  }

  /** An indented line that is not blank is shown as a paragraph, whatever
      follows the indentation: indented headings, bullets and numbered
      items are not recognised. */
  lemma IndentedIsParagraph(line: string)
    requires |line| > 0 && JsText.IsWhitespace(line[0]) && !JsText.IsBlank(line)
    ensures ClassifyLine(line) == Paragraph(line)
  {
    assert !IsDigit(line[0]);
  }

  /** The text a block stands for: its markup put back in front. */
  function Source(b: Block): string {
    match b
    case H2(text) => "## " + text
    case H3(text) => "### " + text
    case Spacer => ""
    case Bullet(text) => "- " + text
    case Numbered(marker, text) => marker + text
    case Paragraph(text) => text
  }

  /** A line the formatting loses nothing of: not blank, and without a
      carriage return or another line terminator. */
  predicate Renderable(line: string) {
    !JsText.IsBlank(line) && forall i :: 0 <= i < |line| ==> !JsText.IsLineTerminator(line[i])
  }

  /** Cutting a line with no line terminator anywhere at `k` and matching
      the tail with `(.*)` loses nothing. */
  lemma CutAndMatch(line: string, k: nat)
    requires k <= |line|
    requires forall i :: 0 <= i < |line| ==> !JsText.IsLineTerminator(line[i])
    ensures line[..k] + UpToLineTerminator(line[k..]) == line
  {
    var rest := line[k..];
    assert forall i :: 0 <= i < |rest| ==> rest[i] == line[k + i];
    UpToLineTerminatorWhole(rest);
    assert line[..k] + line[k..] == line;
  }

  /** A numbered item's marker and text put together give the line back
      when it holds no line terminator. */
  lemma SourceOfNumbered(line: string)
    requires StartsNumbered(line)
    requires forall i :: 0 <= i < |line| ==> !JsText.IsLineTerminator(line[i])
    ensures Source(NumberedItem(line)) == line
  {
    CutAndMatch(line, WhitespaceEnd(line, LeadingDigits(line) + 1));
  }

  /** A line starting with `prefix` is `prefix` and the rest. */
  lemma PrefixAndRest(line: string, prefix: string)
    requires StartsWith(line, prefix)
    ensures prefix + line[|prefix|..] == line
  {
    assert line[..|prefix|] + line[|prefix|..] == line;
  }

  /** The heading, bullet and paragraph cases of `SourceOfClassify`. */
  lemma SourceOfMarked(line: string, prefix: string)
    requires Renderable(line) && prefix in {"## ", "### ", "- "} && StartsWith(line, prefix)
    requires prefix != "## " ==> !StartsWith(line, "## ")
    requires prefix == "- " ==> !StartsWith(line, "### ")
    ensures Source(ClassifyLine(line)) == line
  {
    PrefixAndRest(line, prefix);
  }

  lemma SourceOfNumberedLine(line: string)
    requires Renderable(line) && StartsNumbered(line)
    requires !StartsWith(line, "## ") && !StartsWith(line, "### ") && !StartsWith(line, "- ")
    ensures Source(ClassifyLine(line)) == line
  {
    NumberedLineIff(line);
    SourceOfNumbered(line);
  }

  lemma SourceOfParagraph(line: string)
    requires Renderable(line) && !StartsNumbered(line)
    requires !StartsWith(line, "## ") && !StartsWith(line, "### ") && !StartsWith(line, "- ")
    ensures Source(ClassifyLine(line)) == line
  {
    NumberedIff(line);
  }

  /** Putting a block's markup back gives the line it came from. */
  lemma SourceOfClassify(line: string)
    requires Renderable(line)
    ensures Source(ClassifyLine(line)) == line
  {
    if StartsWith(line, "## ") {
      SourceOfMarked(line, "## ");
    } else if StartsWith(line, "### ") {
      SourceOfMarked(line, "### ");
    } else if StartsWith(line, "- ") {
      SourceOfMarked(line, "- ");
    } else if StartsNumbered(line) {
      SourceOfNumberedLine(line);
    } else {
      SourceOfParagraph(line);
    }
  }

  /** The text the blocks stand for, line by line. */
  function Sources(blocks: seq<Block>): (r: seq<string>)
    ensures |r| == |blocks|
    ensures forall k :: 0 <= k < |r| ==> r[k] == Source(blocks[k])
  {
    seq(|blocks|, k requires 0 <= k < |blocks| => Source(blocks[k]))
  }

  /** When every line is renderable, joining the blocks' sources with
      newlines gives the content back. */
  lemma FormatContentReassembles(content: string)
    requires forall k :: 0 <= k < |Split(content, '\n')| ==> Renderable(Split(content, '\n')[k])
    ensures Join(Sources(FormatContent(content)), '\n') == content
  {
    var lines := Split(content, '\n');
    var sources := Sources(FormatContent(content));
    forall k | 0 <= k < |lines|
      ensures sources[k] == lines[k]
    {
      SourceOfClassify(lines[k]);
    }
    assert sources == lines;
    JoinSplit(content, '\n');
  }

  /** The page for the post with route parameter `id`: the loaded post, the
      loading flag, the toasts shown so far and the requests sent. */
  class ViewBlogPage {
    const id: string
    var blog: Option<ViewedBlog>
    var isLoading: bool
    var toasts: seq<Toast>
    var calls: seq<Call>

    /** The initial render: nothing loaded, loading. */
    constructor (id: string)
      ensures this.id == id && blog == None && isLoading && toasts == [] && calls == []
    {
      this.id := id;
      blog := None;
      isLoading := true;
      toasts := [];
      calls := [];
    }

    /** `loadBlog`: the effect of `Loaded`; on success the post is kept,
        otherwise the page keeps what it had. Loading ends either way. */
    method LoadBlog(storage: map<string, string>, response: Response<ViewedBlog>)
      modifies this
      ensures toasts == old(toasts) + Loaded(id, storage, response).toasts
      ensures calls == old(calls) + Loaded(id, storage, response).calls
      ensures AuthContext.Truthy(storage, TokenKey) && response.Success? ==> blog == Some(response.value)
      ensures !(AuthContext.Truthy(storage, TokenKey) && response.Success?) ==> blog == old(blog)
      ensures !isLoading
    {
      isLoading := true;
      if !AuthContext.Truthy(storage, TokenKey) {
        toasts := toasts + [ErrorToast(None, LoadFailed)];
      } else {
        calls := calls + [Fetch(id, storage[TokenKey])];
        if response.Success? {
          blog := Some(response.value);
        } else {
          toasts := toasts + [ErrorToast(response.error, LoadFailed)];
        }
      }
      isLoading := false;
    }

    /** The mount effect: the post is loaded when the route has an id. */
    method Mount(storage: map<string, string>, response: Response<ViewedBlog>)
      modifies this
      ensures id == [] ==>
        blog == old(blog) && isLoading == old(isLoading) && toasts == old(toasts) && calls == old(calls)
      ensures id != [] ==>
        && toasts == old(toasts) + Loaded(id, storage, response).toasts
        && calls == old(calls) + Loaded(id, storage, response).calls
        && !isLoading
      ensures id != [] && AuthContext.Truthy(storage, TokenKey) && response.Success? ==> blog == Some(response.value)
      ensures id != [] && !(AuthContext.Truthy(storage, TokenKey) && response.Success?) ==> blog == old(blog)
    {
      if id != [] {
        LoadBlog(storage, response);
      }
    }
  }
}
