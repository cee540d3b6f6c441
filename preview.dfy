/** The post previews the pages show: the truncated excerpt (Dashboard at 100
    characters, the create and edit previews at 150) and the read-time
    estimate of the create and edit previews. */
module Preview {
  import opened Strings
  import JsText

  /** `content.substring(0, limit)` (and `slice(0, limit)`): the first
      `limit` characters, or all of them when there are fewer. */
  function Prefix(content: string, limit: nat): string {
    if |content| <= limit then content else content[..limit]
  }

  /** `content.substring(0, limit) + (content.length > limit ? '...' : '')`.
      A short post is shown whole; a long one is cut at `limit` and marked
      with an ellipsis, so an excerpt is never longer than `limit + 3` and
      always begins like the post. */
  function Excerpt(content: string, limit: nat): (r: string)
    ensures |content| <= limit ==> r == content
    ensures |content| > limit ==> |r| == limit + 3 && r[..limit] == content[..limit] && r[limit..] == "..."
    ensures |r| <= limit + 3
  {
    Prefix(content, limit) + (if |content| > limit then "..." else "")
  }

  /** Taking the excerpt of an excerpt changes nothing. */
  lemma ExcerptIdempotent(content: string, limit: nat)
    ensures Excerpt(Excerpt(content, limit), limit) == Excerpt(content, limit)
  {
    if |content| > limit {
      var e := Excerpt(content, limit);
      assert e[..limit] == content[..limit];
    }
  }

  /** Words read per minute. */
  const WordsPerMinute: nat := 200

  /** `Math.max(a, b)`. */
  function Max(a: int, b: int): int {
    if a < b then b else a
  }

  /** `Math.ceil(a / b)` for natural numbers. */
  function CeilDiv(a: nat, b: nat): nat
    requires b > 0
  {
    (a + b - 1) / b
  }

  /** `Math.max(1, Math.ceil(content.split(/\s+/).length / 200))`: the
      least number of whole minutes in which the pieces of the content can be
      read at 200 a minute. It is never below one, and it is one exactly when
      there are at most 200 pieces. */
  function ReadTime(content: string): (minutes: nat)
    ensures var words := |JsText.SplitOnWhitespace(content)|;
      && minutes >= 1
      && words <= minutes * WordsPerMinute
      && (minutes - 1) * WordsPerMinute < words
      && (minutes == 1 <==> words <= WordsPerMinute)
  {
    var words := |JsText.SplitOnWhitespace(content)|;
    var m := CeilDiv(words, WordsPerMinute);
    assert m * 200 <= words + 199 < m * 200 + 200;
    Max(1, m)
  }
}
