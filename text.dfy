/**
 The string tests that stand for the loader's regular expressions, with Go's RE2 meaning
 spelled out, and the two pieces of text formatting the core relies on: decimal rendering
 of a line number (Go's `%d`) and joining phrases with a separator.
 */
module FleText {

  /** RE2's `\s`: tab, newline, form feed, carriage return and space (no vertical tab). */
  predicate IsSpace(c: char) {
    c == '\t' || c == '\n' || c == '\U{000C}' || c == '\r' || c == ' '
  }

  /** `^#`: a full-line comment. */
  predicate IsLineComment(s: string) {
    |s| > 0 && s[0] == '#'
  }

  /** `^\s+$`: at least one character, all of them white space. */
  predicate IsOnlySpaces(s: string) {
    |s| > 0 && forall i | 0 <= i < |s| :: IsSpace(s[i])
  }

  /** The loader's blank-line test: empty, or `^\s+$`. */
  predicate IsBlank(s: string) {
    |s| == 0 || IsOnlySpaces(s)
  }

  /** `^{`: the line opens a block comment. */
  predicate OpensBlock(s: string) {
    |s| > 0 && s[0] == '{'
  }

  /** `}$`: the line ends a block comment. */
  predicate EndsBlock(s: string) {
    |s| > 0 && s[|s| - 1] == '}'
  }

  /** `^{.+}$`: a block comment that opens and closes on one line, with at least one
      character between the braces; RE2's `.` matches anything but a newline. */
  predicate IsOneLineBlock(s: string) {
    |s| >= 3 && s[0] == '{' && s[|s| - 1] == '}' &&
    forall i | 1 <= i < |s| - 1 :: s[i] != '\n'
  }

  /** Whether `c` matches the lower-case ASCII letter `k` under RE2's `(?i)`, which follows
      the Unicode simple case-folding orbit of `k`: the letter, its capital, and for `k`
      and `s` also KELVIN SIGN and LATIN SMALL LETTER LONG S. */
  predicate FoldsTo(c: char, k: char) {
    c == k || c as int + 32 == k as int ||
    (k == 'k' && c == '\U{212A}') || (k == 's' && c == '\U{017F}')
  }

  /** `(?i)^keyword `: the keyword in any case, then exactly one space character. */
  predicate StartsWithKeyword(s: string, keyword: string) {
    |s| > |keyword| && s[|keyword|] == ' ' &&
    forall i | 0 <= i < |keyword| :: FoldsTo(s[i], keyword[i])
  }

  /** What Go's `Split` on `(?i)^keyword ` leaves as its second element: the text after
      the keyword and its space. */
  function AfterKeyword(s: string, keyword: string): (rest: string)
    requires StartsWithKeyword(s, keyword)
    ensures |rest| + |keyword| + 1 == |s|
  {
    s[|keyword| + 1..]
  }

  /** The line is the keyword as written, its space, and the remainder: `Split` loses nothing
      but the matched prefix, and the remainder is exactly what follows it. */
  lemma AfterKeywordSplits(s: string, keyword: string)
    requires StartsWithKeyword(s, keyword)
    ensures s == s[..|keyword|] + " " + AfterKeyword(s, keyword)
  {
  }

  predicate IsDigit(c: char) {
    '0' <= c <= '9'
  }

  function DigitChar(d: nat): (c: char)
    requires d < 10
    ensures IsDigit(c)
  {
    ('0' as int + d) as char
  }

  function DigitValue(c: char): nat
    requires IsDigit(c)
  {
    c as int - '0' as int
  }

  /** Go's `%d` for a non-negative integer: decimal digits, no sign, no padding. */
  function NatToString(n: nat): (s: string)
    ensures |s| >= 1
    ensures forall i | 0 <= i < |s| :: IsDigit(s[i])
    ensures n > 0 ==> s[0] != '0'
    decreases n
  {
    if n < 10 then [DigitChar(n)] else NatToString(n / 10) + [DigitChar(n % 10)]
  }

  /** The value of a string of decimal digits, read most significant digit first. */
  function DecimalValue(s: string): nat
    requires forall i | 0 <= i < |s| :: IsDigit(s[i])
    decreases |s|
  {
    if s == [] then 0 else DecimalValue(s[..|s| - 1]) * 10 + DigitValue(s[|s| - 1])
  }

  /** Reading back the decimal rendering gives the number: `%d` loses nothing, so two
      different line numbers never print alike. */
  lemma {:induction false} NatToStringRoundTrip(n: nat)
    ensures DecimalValue(NatToString(n)) == n
    decreases n
  {
    if n >= 10 {
      NatToStringRoundTrip(n / 10);
      var s := NatToString(n);
      assert s[..|s| - 1] == NatToString(n / 10);
    }
  }

  /** The phrases in order, with `sep` between consecutive ones. */
  function Join(parts: seq<string>, sep: string): string
    decreases |parts|
  {
    if |parts| == 0 then ""
    else if |parts| == 1 then parts[0]
    else parts[0] + sep + Join(parts[1..], sep)
  }

  /** Joining two non-empty runs of phrases is joining each and putting one separator between. */
  lemma {:induction false} JoinAppend(a: seq<string>, b: seq<string>, sep: string)
    requires |a| > 0 && |b| > 0
    ensures Join(a + b, sep) == Join(a, sep) + sep + Join(b, sep)
    decreases |a|
  {
    if |a| == 1 {
      assert (a + b)[1..] == b;
    } else {
      assert (a + b)[1..] == a[1..] + b;
      JoinAppend(a[1..], b, sep);
    }
  }
}
