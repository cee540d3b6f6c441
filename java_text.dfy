/** The Java string operations the services rely on: `trim()`, `isBlank()`
    and `toLowerCase()`. */
module JavaText {
  import opened Strings

  /** `String.trim` removes every leading and trailing code point at or
      below U+0020, control characters included. */
  predicate IsTrimmed(c: char) {
    c as int <= 0x20
  }

  /** `Character.isWhitespace`: the separators of categories Zs, Zl and Zp
      other than the no-break spaces, and the controls U+0009 to U+000D and
      U+001C to U+001F. */
  predicate IsWhitespace(c: char) {
    var n := c as int;
    (0x09 <= n <= 0x0D) || (0x1C <= n <= 0x20) || n == 0x1680
    || (0x2000 <= n <= 0x2006) || (0x2008 <= n <= 0x200A)
    || n == 0x2028 || n == 0x2029 || n == 0x205F || n == 0x3000
  }

  /** `s.trim()`. */
  function Trim(s: string): string {
    TrimBy(s, IsTrimmed)
  }

  /** `s.isBlank()`: empty or whitespace only. */
  predicate IsBlank(s: string) {
    All(s, IsWhitespace)
  }

  /** `Character.toLowerCase` restricted to the ASCII letters. */
  function LowerChar(c: char): (r: char)
    ensures IsTrimmed(r) <==> IsTrimmed(c)
  {
    if 'A' <= c <= 'Z' then (c as int + 32) as char else c
  }

  /** `s.toLowerCase()` on ASCII letters. */
  function ToLowerCase(s: string): string {
    MapChars(s, LowerChar)
  }

  lemma {:induction false} ToLowerCaseIdempotent(s: string)
    ensures ToLowerCase(ToLowerCase(s)) == ToLowerCase(s)
  {
    var once := ToLowerCase(s);
    var twice := ToLowerCase(once);
    forall i | 0 <= i < |s| ensures twice[i] == once[i] {
      assert once[i] == LowerChar(s[i]);
    }
  }

  lemma {:induction false} TrimStartLower(s: string)
    ensures TrimStartBy(ToLowerCase(s), IsTrimmed) == ToLowerCase(TrimStartBy(s, IsTrimmed))
  {
    if s != [] && IsTrimmed(s[0]) {
      assert ToLowerCase(s)[1..] == ToLowerCase(s[1..]);
      TrimStartLower(s[1..]);
    }
  }

  lemma {:induction false} TrimEndLower(s: string)
    ensures TrimEndBy(ToLowerCase(s), IsTrimmed) == ToLowerCase(TrimEndBy(s, IsTrimmed))
  {
    if s != [] && IsTrimmed(s[|s| - 1]) {
      assert ToLowerCase(s)[..|s| - 1] == ToLowerCase(s[..|s| - 1]);
      TrimEndLower(s[..|s| - 1]);
    }
  }

  /** Lower-casing never moves the trim boundaries. */
  lemma TrimLowerCommute(s: string)
    ensures Trim(ToLowerCase(s)) == ToLowerCase(Trim(s))
  {
    TrimStartLower(s);
    TrimEndLower(TrimStartBy(s, IsTrimmed));
  }

  /** Trimming twice trims no more than trimming once. */
  lemma TrimIdempotent(s: string)
    ensures Trim(Trim(s)) == Trim(s)
  {
    var t := Trim(s);
    var u := TrimStartBy(s, IsTrimmed);
    if t != [] {
      assert t[0] == u[0];
    }
    TrimByOfTrimmed(t, IsTrimmed);
  }

  /** Surrounding characters at or below U+0020 are invisible to `trim()`. */
  lemma {:induction false} TrimIgnoresPadding(before: string, s: string, after: string)
    requires All(before, IsTrimmed) && All(after, IsTrimmed)
    ensures Trim(before + s + after) == Trim(s)
  {
    TrimStartPadding(before, s, after);
    TrimStartIgnoresTail(s, after);
  }

  /** Leading padding is all that a leading trim of `before + s + after`
      removes before it reaches `s`. */
  lemma {:induction false} TrimStartPadding(before: string, s: string, after: string)
    requires All(before, IsTrimmed)
    ensures TrimStartBy(before + s + after, IsTrimmed) == TrimStartBy(s + after, IsTrimmed)
  {
    if before == [] {
      assert before + s + after == s + after;
    } else {
      assert (before + s + after)[0] == before[0];
      assert (before + s + after)[1..] == before[1..] + s + after;
      TrimStartPadding(before[1..], s, after);
    }
  }

  lemma {:induction false} TrimEndPadding(s: string, after: string)
    requires All(after, IsTrimmed)
    ensures TrimEndBy(s + after, IsTrimmed) == TrimEndBy(s, IsTrimmed)
  {
    if after == [] {
      assert s + after == s;
    } else {
      var n := |after| - 1;
      assert (s + after)[|s + after| - 1] == after[n];
      assert (s + after)[..|s + after| - 1] == s + after[..n];
      TrimEndPadding(s, after[..n]);
    }
  }

  /** Trimming the start of `s + after`, where `after` is all padding, is
      trimming the start of `s` and keeping `after` when `s` has a kept
      character; otherwise everything goes. */
  lemma {:induction false} TrimStartIgnoresTail(s: string, after: string)
    requires All(after, IsTrimmed)
    ensures TrimEndBy(TrimStartBy(s + after, IsTrimmed), IsTrimmed)
         == TrimEndBy(TrimStartBy(s, IsTrimmed), IsTrimmed)
  {
    if s == [] {
      assert s + after == after;
      TrimEndPadding([], TrimStartBy(after, IsTrimmed)[..0]);
      TrimByEmptyIff(after, IsTrimmed);
      TrimByEmptyIff([], IsTrimmed);
    } else if IsTrimmed(s[0]) {
      assert (s + after)[1..] == s[1..] + after;
      TrimStartIgnoresTail(s[1..], after);
    } else {
      TrimEndPadding(TrimStartBy(s, IsTrimmed), after);
    }
  }
}
