/** String operations shared by the JavaScript and the Java parts of the model.
    A string is a sequence of characters. */
module Strings {

  /** `s.startsWith(p)` in both languages. */
  predicate StartsWith(s: string, p: string) {
    |p| <= |s| && s[..|p|] == p
  }

  /** Every character of `s` satisfies `p`. */
  predicate All(s: string, p: char -> bool) {
    forall i :: 0 <= i < |s| ==> p(s[i])
  }

  /** `s` with the leading characters that satisfy `drop` removed. */
  function TrimStartBy(s: string, drop: char -> bool): (r: string)
    ensures |r| <= |s| && r == s[|s| - |r|..]
    ensures r == [] || !drop(r[0])
  {
    if s == [] || !drop(s[0]) then s
    else TrimStartBy(s[1..], drop)
  }

  /** The characters a leading trim removes all satisfy `drop`. */
  lemma {:induction false} TrimStartDropped(s: string, drop: char -> bool)
    ensures forall i :: 0 <= i < |s| - |TrimStartBy(s, drop)| ==> drop(s[i])
  {
    if s != [] && drop(s[0]) {
      TrimStartDropped(s[1..], drop);
      assert forall i :: 0 < i < |s| ==> s[i] == s[1..][i - 1];
    }
  }

  /** `s` with the trailing characters that satisfy `drop` removed. */
  function TrimEndBy(s: string, drop: char -> bool): (r: string)
    ensures |r| <= |s| && r == s[..|r|]
    ensures r == [] || !drop(r[|r| - 1])
  {
    if s == [] || !drop(s[|s| - 1]) then s
    else TrimEndBy(s[..|s| - 1], drop)
  }

  /** The characters a trailing trim removes all satisfy `drop`. */
  lemma {:induction false} TrimEndDropped(s: string, drop: char -> bool)
    ensures forall i :: |TrimEndBy(s, drop)| <= i < |s| ==> drop(s[i])
  {
    if s != [] && drop(s[|s| - 1]) {
      TrimEndDropped(s[..|s| - 1], drop);
      assert forall i :: 0 <= i < |s| - 1 ==> s[i] == s[..|s| - 1][i];
    }
  }

  /** Both ends trimmed: the shape of Java's and of JavaScript's `trim()`,
      which differ only in the characters they drop. */
  function TrimBy(s: string, drop: char -> bool): string {
    TrimEndBy(TrimStartBy(s, drop), drop)
  }

  /** Trimming leaves nothing exactly when every character is dropped. */
  lemma TrimByEmptyIff(s: string, drop: char -> bool)
    ensures TrimBy(s, drop) == [] <==> All(s, drop)
  {
    var t := TrimStartBy(s, drop);
    var k := |s| - |t|;
    TrimStartDropped(s, drop);
    TrimEndDropped(t, drop);
    if TrimEndBy(t, drop) == [] {
      forall i | 0 <= i < |s| ensures drop(s[i]) {
        if i < k {
          assert s[..k][i] == s[i];
        } else {
          assert t[i - k] == s[i];
        }
      }
    }
  }

  /** Appending to a string that does not trim to nothing cannot make it
      trim to nothing. */
  lemma TrimByNonEmptyExtends(s: string, extra: string, drop: char -> bool)
    requires TrimBy(s, drop) != []
    ensures TrimBy(s + extra, drop) != []
  {
    TrimByEmptyIff(s, drop);
    var i :| 0 <= i < |s| && !drop(s[i]);
    assert (s + extra)[i] == s[i];
    TrimByEmptyIff(s + extra, drop);
  }

  /** A string whose end characters are both kept is its own trim. */
  lemma TrimByOfTrimmed(s: string, drop: char -> bool)
    requires s == [] || (!drop(s[0]) && !drop(s[|s| - 1]))
    ensures TrimBy(s, drop) == s
  {
  }

  /** The characters of `s` with `f` applied to each. */
  function MapChars(s: string, f: char -> char): (r: string)
    ensures |r| == |s|
    ensures forall i :: 0 <= i < |s| ==> r[i] == f(s[i])
  {
    seq(|s|, i requires 0 <= i < |s| => f(s[i]))
  }

  /** Number of occurrences of `c` in `s`. */
  function Count(s: string, c: char): nat {
    if s == [] then 0 else (if s[0] == c then 1 else 0) + Count(s[1..], c)
  }

  /** `s.split(sep)` for a one-character separator: the maximal runs between
      separators, including the empty ones at either end. */
  function Split(s: string, sep: char): (r: seq<string>)
    ensures |r| >= 1
    ensures forall k :: 0 <= k < |r| ==> sep !in r[k]
  {
    if s == [] then [[]]
    else
      var rest := Split(s[1..], sep);
      if s[0] == sep then [[]] + rest
      else [[s[0]] + rest[0]] + rest[1..]
  }

  /** `pieces.join(sep)`. */
  function Join(pieces: seq<string>, sep: char): string
    requires |pieces| >= 1
  {
    if |pieces| == 1 then pieces[0] else pieces[0] + [sep] + Join(pieces[1..], sep)
  }

  /** Splitting and joining on the same separator gives the string back. */
  lemma {:induction false} JoinSplit(s: string, sep: char)
    ensures Join(Split(s, sep), sep) == s
  {
    if s != [] {
      var rest := Split(s[1..], sep);
      JoinSplit(s[1..], sep);
      if s[0] != sep {
        if |rest| == 1 {
          assert Split(s, sep) == [[s[0]] + rest[0]];
        } else {
          var r := Split(s, sep);
          assert r[1..] == rest[1..];
          assert Join(r, sep) == [s[0]] + rest[0] + [sep] + Join(rest[1..], sep);
        }
      } else {
        assert Split(s, sep)[1..] == rest;
      }
    }
  }

  /** There is one piece more than there are separators. */
  lemma {:induction false} SplitCount(s: string, sep: char)
    ensures |Split(s, sep)| == Count(s, sep) + 1
  {
    if s != [] {
      SplitCount(s[1..], sep);
    }
  }

  /** The first piece is the part of `s` before the first separator. */
  lemma {:induction false} SplitFirst(s: string, sep: char)
    ensures StartsWith(s, Split(s, sep)[0])
    ensures |Split(s, sep)[0]| < |s| ==> s[|Split(s, sep)[0]|] == sep
    ensures sep !in s ==> Split(s, sep)[0] == s
  {
    if s != [] {
      SplitFirst(s[1..], sep);
    }
  }

  /** A decimal digit. */
  predicate IsDigit(c: char) {
    '0' <= c <= '9'
  }

  function DigitChar(d: nat): (c: char)
    requires d < 10
    ensures IsDigit(c)
  {
    "0123456789"[d]
  }

  function DigitValue(c: char): (d: nat)
    requires IsDigit(c)
    ensures d < 10
  {
    (c as int - '0' as int) as nat
  }

  /** The decimal form of a natural number, as JavaScript writes an
      integral number when it is concatenated to a string. */
  function Decimal(n: nat): (r: string)
    ensures |r| >= 1 && All(r, IsDigit)
  {
    if n < 10 then [DigitChar(n)] else Decimal(n / 10) + [DigitChar(n % 10)]
  }

  /** The number a string of decimal digits denotes. */
  function DecimalValue(s: string): nat
    requires All(s, IsDigit)
  {
    if s == [] then 0
    else
      DecimalValue(s[..|s| - 1]) * 10 + DigitValue(s[|s| - 1])
  }

  /** Reading back the decimal form of `n` gives `n`. */
  lemma {:induction false} DecimalRoundTrip(n: nat)
    ensures DecimalValue(Decimal(n)) == n
  {
    var d := DigitChar(n % 10);
    assert DigitValue(d) == n % 10 by {
      assert "0123456789"[n % 10] as int - '0' as int == n % 10;
    }
    if n >= 10 {
      DecimalRoundTrip(n / 10);
      var s := Decimal(n);
      assert s[..|s| - 1] == Decimal(n / 10);
    }
  }
}
