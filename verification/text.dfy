/**
 * The string operations the pages rely on, written out: JavaScript's
 * `String.prototype.trim`, the `/\D/g` digit filter, `String(n)` on a
 * non-negative integer and `padStart(2, "0")`.
 */
module Text {
  import opened Wrappers

  /**
   * The characters `trim` removes: the WhiteSpace and LineTerminator code
   * points of the ECMAScript grammar (tab, vertical tab, form feed, space,
   * no-break space, byte order mark, the Unicode space separators, line feed,
   * carriage return, line and paragraph separators).
   */
  const Whitespace: set<char> := {
    '\t', '\n', '\U{B}', '\U{C}', '\r', ' ', '\U{A0}', '\U{1680}',
    '\U{2000}', '\U{2001}', '\U{2002}', '\U{2003}', '\U{2004}', '\U{2005}',
    '\U{2006}', '\U{2007}', '\U{2008}', '\U{2009}', '\U{200A}',
    '\U{2028}', '\U{2029}', '\U{202F}', '\U{205F}', '\U{3000}', '\U{FEFF}'
  }

  predicate IsWhitespace(c: char) {
    c in Whitespace
  }

  /** A string that is empty once trimmed (`!s.trim()` in the pages). */
  predicate IsBlank(s: string) {
    forall k :: 0 <= k < |s| ==> IsWhitespace(s[k])
  }

  /** Neither end is whitespace: what `trim` returns. */
  predicate IsTrimmed(s: string) {
    s == [] || (!IsWhitespace(s[0]) && !IsWhitespace(s[|s| - 1]))
  }

  /** The length of the whitespace run at the start of `s`. */
  function LeadingSpace(s: string): (n: nat)
    ensures n <= |s|
    ensures IsBlank(s[..n])
    ensures n < |s| ==> !IsWhitespace(s[n])
  {
    if s == [] || !IsWhitespace(s[0]) then 0
    else
      var m := LeadingSpace(s[1..]);
      assert s[..1 + m] == [s[0]] + s[1..][..m];
      1 + m
  }

  /** The length of the whitespace run at the end of `s`. */
  function TrailingSpace(s: string): (n: nat)
    ensures n <= |s|
    ensures IsBlank(s[|s| - n..])
    ensures n < |s| ==> !IsWhitespace(s[|s| - 1 - n])
  {
    if s == [] || !IsWhitespace(s[|s| - 1]) then 0
    else
      var init := s[..|s| - 1];
      var m := TrailingSpace(init);
      assert s[|s| - (1 + m)..] == init[|init| - m..] + [s[|s| - 1]];
      1 + m
  }

  /**
   * `s.trim()`: the slice of `s` left when the whitespace at both ends is cut
   * off. It is empty exactly when `s` is blank.
   */
  function Trim(s: string): (r: string)
    ensures |r| <= |s|
    ensures IsTrimmed(r)
    ensures exists i :: 0 <= i <= |s| - |r| && s[i..i + |r|] == r && IsBlank(s[..i]) && IsBlank(s[i + |r|..])
    ensures r == [] <==> IsBlank(s)
  {
    var a := LeadingSpace(s);
    var rest := s[a..];
    var b := TrailingSpace(rest);
    assert rest[|rest| - b..] == s[|s| - b..];
    assert b < |rest| ==> rest[|rest| - 1 - b] == s[|s| - 1 - b];
    TrimSlice(s, a, b);
    s[a..|s| - b]
  }

  /** The facts behind Trim: cutting the two whitespace runs leaves a trimmed slice. */
  lemma TrimSlice(s: string, a: nat, b: nat)
    requires a + b <= |s|
    requires IsBlank(s[..a]) && (a < |s| ==> !IsWhitespace(s[a]))
    requires IsBlank(s[|s| - b..]) && (a + b < |s| ==> !IsWhitespace(s[|s| - 1 - b]))
    ensures IsTrimmed(s[a..|s| - b])
    ensures s[a..|s| - b] == [] <==> IsBlank(s)
  {
    var r := s[a..|s| - b];
    if r != [] {
      assert r[0] == s[a];
      assert r[|r| - 1] == s[|s| - 1 - b];
    }
    if r == [] {
      assert s == s[..a];
    }
  }

  /** Trimming a string that is already trimmed leaves it as it is. */
  lemma TrimOfTrimmed(s: string)
    requires IsTrimmed(s)
    ensures Trim(s) == s
  {
  }

  /** `trim` is idempotent. */
  lemma TrimIdempotent(s: string)
    ensures Trim(Trim(s)) == Trim(s)
  {
    TrimOfTrimmed(Trim(s));
  }

  /** `s.trim() || null`: the trimmed text, or null when nothing is left. */
  function NullIfBlank(s: string): (r: Option<string>)
    ensures r.None? <==> IsBlank(s)
    ensures r.Some? ==> r.value != [] && IsTrimmed(r.value)
  {
    var t := Trim(s);
    if t == [] then None else Some(t)
  }

  /** An optional text column as the forms store it: null, or non-empty trimmed text. */
  predicate IsNormalizedText(o: Option<string>) {
    o.None? || (o.value != [] && IsTrimmed(o.value))
  }

  /**
   * Loading a column into a form field (`value ?? ""`) and saving the field
   * back (`field.trim() || null`) gives the column back unchanged.
   */
  lemma NullIfBlankRoundTrip(o: Option<string>)
    requires IsNormalizedText(o)
    ensures NullIfBlank(o.GetOr("")) == o
  {
    if o.Some? {
      TrimOfTrimmed(o.value);
    }
  }

  predicate IsDigit(c: char) {
    '0' <= c <= '9'
  }

  predicate AllDigits(s: string) {
    forall k :: 0 <= k < |s| ==> IsDigit(s[k])
  }

  /** `a` can be obtained from `b` by deleting elements (order kept). */
  ghost predicate IsSubsequence<T>(a: seq<T>, b: seq<T>)
    decreases |b|
  {
    if a == [] then true
    else if b == [] then false
    else if a[0] == b[0] then IsSubsequence(a[1..], b[1..])
    else IsSubsequence(a, b[1..])
  }

  /**
   * `s.replace(/\D/g, "")`: every character that is not an ASCII digit is
   * removed; the digits are all kept, in their order.
   */
  function DigitsOnly(s: string): (r: string)
    ensures AllDigits(r)
    ensures IsSubsequence(r, s)
    ensures forall c :: IsDigit(c) ==> multiset(r)[c] == multiset(s)[c]
  {
    if s == [] then []
    else
      var rest := DigitsOnly(s[1..]);
      assert s == [s[0]] + s[1..];
      if IsDigit(s[0]) then
        var r := [s[0]] + rest;
        assert r[1..] == rest;
        r
      else
        rest
  }

  /** The longest prefix of `s` made of digits. */
  function LeadingDigits(s: string): (r: string)
    ensures |r| <= |s| && r == s[..|r|]
    ensures AllDigits(r)
    ensures |r| == |s| || !IsDigit(s[|r|])
  {
    if s == [] || !IsDigit(s[0]) then []
    else [s[0]] + LeadingDigits(s[1..])
  }

  /** Reading the digits back from a digit string followed by a non-digit. */
  lemma {:induction false} LeadingDigitsOfDigits(d: string, c: char, rest: string)
    requires AllDigits(d) && !IsDigit(c)
    ensures LeadingDigits(d + [c] + rest) == d
  {
    if d != [] {
      assert (d + [c] + rest)[1..] == d[1..] + [c] + rest;
      LeadingDigitsOfDigits(d[1..], c, rest);
    }
  }

  function DigitChar(d: nat): (c: char)
    requires d < 10
    ensures IsDigit(c)
  {
    (48 + d) as char
  }

  function DigitValue(c: char): (d: nat)
    requires IsDigit(c)
    ensures d < 10 && DigitChar(d) == c
  {
    (c as int) - 48
  }

  /** The number a string of decimal digits denotes (leading zeros allowed). */
  function DecimalValue(s: string): nat
    requires AllDigits(s)
  {
    if s == [] then 0
    else DecimalValue(s[..|s| - 1]) * 10 + DigitValue(s[|s| - 1])
  }

  /**
   * `String(n)` for a non-negative integer: its decimal digits, with no
   * leading zero, denoting `n`.
   */
  function NatToString(n: nat): (s: string)
    ensures |s| >= 1 && AllDigits(s)
    ensures s[0] == '0' ==> n == 0
    ensures DecimalValue(s) == n
    ensures n < 10 ==> |s| == 1
    ensures n < 100 ==> |s| <= 2
  {
    if n < 10 then [DigitChar(n)]
    else
      var s := NatToString(n / 10) + [DigitChar(n % 10)];
      assert s[..|s| - 1] == NatToString(n / 10);
      s
  }

  /** A zero in front does not change the value of a digit string. */
  lemma {:induction false} LeadingZeroValue(s: string)
    requires AllDigits(s)
    ensures AllDigits("0" + s) && DecimalValue("0" + s) == DecimalValue(s)
  {
    if s != [] {
      var t := "0" + s;
      assert t[..|t| - 1] == "0" + s[..|s| - 1];
      LeadingZeroValue(s[..|s| - 1]);
    }
  }

  /** `s.padStart(2, "0")`. */
  function PadStart2(s: string): (r: string)
    ensures |r| == if |s| >= 2 then |s| else 2
    ensures r[|r| - |s|..] == s
    ensures forall k :: 0 <= k < |r| - |s| ==> r[k] == '0'
  {
    if |s| >= 2 then s
    else if |s| == 1 then "0" + s
    else "00"
  }

  /**
   * `String(n).padStart(2, "0")`: at least two digits, still denoting `n`;
   * exactly two when `n < 100`.
   */
  function Pad2(n: nat): (r: string)
    ensures |r| >= 2 && AllDigits(r)
    ensures DecimalValue(r) == n
    ensures n < 100 ==> |r| == 2
  {
    var s := NatToString(n);
    var r := PadStart2(s);
    assert |s| == 1 ==> r == "0" + s && DecimalValue(r) == n by {
      if |s| == 1 {
        LeadingZeroValue(s);
      }
    }
    r
  }

  /**
   * `{n} word{n !== 1 ? "s" : ""}`: a count followed by a word that takes
   * an "s" for every count but one. The count can be read back from the front.
   */
  function CountPhrase(n: nat, word: string): (r: string)
    ensures LeadingDigits(r) == NatToString(n) && DecimalValue(LeadingDigits(r)) == n
    ensures r[|NatToString(n)|..] == " " + word + (if n == 1 then "" else "s")
  {
    var digits := NatToString(n);
    var tail := word + (if n == 1 then "" else "s");
    LeadingDigitsOfDigits(digits, ' ', tail);
    assert digits + [' '] + tail == digits + " " + word + (if n == 1 then "" else "s");
    digits + " " + word + (if n == 1 then "" else "s")
  }
}
