/** The JavaScript string operations the pages rely on: `trim()`, the `\s`
    character class and `split(/\s+/)`. */
module JsText {
  import opened Strings

  /** ECMAScript WhiteSpace and LineTerminator code points: exactly what
      `String.prototype.trim` removes and what the regular expression class
      `\s` matches. */
  predicate IsWhitespace(c: char) {
    var n := c as int;
    n == 0x09 || n == 0x0A || n == 0x0B || n == 0x0C || n == 0x0D || n == 0x20
    || n == 0xA0 || n == 0x1680 || (0x2000 <= n <= 0x200A) || n == 0x2028 || n == 0x2029
    || n == 0x202F || n == 0x205F || n == 0x3000 || n == 0xFEFF
  }

  /** ECMAScript LineTerminator code points: what the regular expression `.`
      does not match. */
  predicate IsLineTerminator(c: char) {
    var n := c as int;
    n == 0x0A || n == 0x0D || n == 0x2028 || n == 0x2029
  }

  predicate NoWhitespace(s: string) {
    forall i :: 0 <= i < |s| ==> !IsWhitespace(s[i])
  }

  /** `s.trim()`. */
  function Trim(s: string): string {
    TrimBy(s, IsWhitespace)
  }

  /** Every character is whitespace (in particular the empty string is
      blank). */
  predicate IsBlank(s: string) {
    All(s, IsWhitespace)
  }

  /** `!s.trim()` and `s.trim() === ''`: a string is blank exactly when
      trimming it leaves the empty, falsy string. */
  lemma BlankIffAllWhitespace(s: string)
    ensures IsBlank(s) <==> Trim(s) == []
  {
    TrimByEmptyIff(s, IsWhitespace);
  }

  /** `s.split(/\s+/)`: the pieces between maximal runs of whitespace,
      with an empty piece before a leading run and after a trailing one. */
  function SplitOnWhitespace(s: string): (r: seq<string>)
    ensures |r| >= 1
    ensures forall k :: 0 <= k < |r| ==> NoWhitespace(r[k])
    decreases |s|
  {
    if s == [] then [[]]
    else if !IsWhitespace(s[0]) then
      var rest := SplitOnWhitespace(s[1..]);
      [[s[0]] + rest[0]] + rest[1..]
    else
      var after := TrimStartBy(s, IsWhitespace);
      assert |after| < |s|;
      [[]] + SplitOnWhitespace(after)
  }

  /** A character-by-character count of the maximal whitespace runs of `s`:
      a run starts at each whitespace character not preceded by whitespace
      (`afterWhitespace` says whether the character before `s` was one). */
  function WhitespaceRuns(s: string, afterWhitespace: bool): nat {
    if s == [] then 0
    else (if IsWhitespace(s[0]) && !afterWhitespace then 1 else 0)
         + WhitespaceRuns(s[1..], IsWhitespace(s[0]))
  }

  lemma {:induction false} RunsSkipWhitespace(s: string)
    ensures WhitespaceRuns(s, true) == WhitespaceRuns(TrimStartBy(s, IsWhitespace), true)
  {
    if s != [] && IsWhitespace(s[0]) {
      RunsSkipWhitespace(s[1..]);
    }
  }

  /** `split(/\s+/)` yields one piece more than there are whitespace runs. */
  lemma {:induction false} SplitOnWhitespaceCount(s: string)
    ensures |SplitOnWhitespace(s)| == WhitespaceRuns(s, false) + 1
    decreases |s|
  {
    if s != [] {
      if !IsWhitespace(s[0]) {
        SplitOnWhitespaceCount(s[1..]);
      } else {
        var after := TrimStartBy(s, IsWhitespace);
        SplitOnWhitespaceCount(after);
        RunsSkipWhitespace(s[1..]);
        assert TrimStartBy(s[1..], IsWhitespace) == after;
        assert WhitespaceRuns(after, true) == WhitespaceRuns(after, false);
      }
    }
  }
}
