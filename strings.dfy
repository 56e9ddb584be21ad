/**
 * The Python `str` builtins the bot relies on, over `seq<char>`:
 * `isspace`, `strip()`, `split()` without arguments, `lower()`,
 * `startswith`, `endswith`, the `in` substring test and `str()` of an integer.
 */
module Strings {

  /** Python's `str.isspace()` for one character; `strip()` and `split()` use the same set. */
  predicate IsSpace(c: char) {
    ('\t' <= c <= '\r') || ('\U{1C}' <= c <= ' ') || c == '\U{85}' || c == '\U{A0}'
    || c == '\U{1680}' || ('\U{2000}' <= c <= '\U{200A}') || c == '\U{2028}' || c == '\U{2029}'
    || c == '\U{202F}' || c == '\U{205F}' || c == '\U{3000}'
  }

  predicate AllSpace(s: string) {
    forall i :: 0 <= i < |s| ==> IsSpace(s[i])
  }

  predicate NoSpace(s: string) {
    forall i :: 0 <= i < |s| ==> !IsSpace(s[i])
  }

  /** No whitespace at either end: the shape of what `strip()` returns. */
  predicate Stripped(s: string) {
    s == [] || (!IsSpace(s[0]) && !IsSpace(s[|s| - 1]))
  }

  // ---------------------------------------------------------------------------
  // strip()

  /** `lstrip()`: drops the leading whitespace. */
  function TrimLeft(s: string): (r: string)
    ensures |r| <= |s|
  {
    if s != [] && IsSpace(s[0]) then TrimLeft(s[1..]) else s
  }

  /** `rstrip()`: drops the trailing whitespace. */
  function TrimRight(s: string): (r: string)
    ensures |r| <= |s|
  {
    if s != [] && IsSpace(s[|s| - 1]) then TrimRight(s[..|s| - 1]) else s
  }

  /** Python's `str.strip()` without arguments. */
  function Strip(s: string): (r: string)
    ensures |r| <= |s|
  {
    TrimRight(TrimLeft(s))
  }

  /** What `strip()` returns has no whitespace at either end. */
  lemma StripStripped(s: string)
    ensures Stripped(Strip(s))
  {
    TrimLeftShape(s);
    TrimRightShape(TrimLeft(s));
  }

  /** How many whitespace characters `strip()` drops from the front of `s`. */
  function LeadingSpace(s: string): nat {
    |s| - |TrimLeft(s)|
  }

  /** `lstrip()` keeps a suffix, drops only whitespace, and stops at a non-whitespace character. */
  lemma {:induction false} TrimLeftShape(s: string)
    ensures TrimLeft(s) == s[|s| - |TrimLeft(s)|..]
    ensures AllSpace(s[..|s| - |TrimLeft(s)|])
    ensures TrimLeft(s) == [] || !IsSpace(TrimLeft(s)[0])
    decreases |s|
  {
    if s != [] && IsSpace(s[0]) {
      TrimLeftShape(s[1..]);
      var k := |s| - |TrimLeft(s)|;
      assert s[..k] == [s[0]] + s[1..][..k - 1];
    }
  }

  /** `rstrip()` keeps a prefix, drops only whitespace, and stops at a non-whitespace character. */
  lemma {:induction false} TrimRightShape(s: string)
    ensures TrimRight(s) == s[..|TrimRight(s)|]
    ensures AllSpace(s[|TrimRight(s)|..])
    ensures TrimRight(s) == [] || !IsSpace(TrimRight(s)[|TrimRight(s)| - 1])
    decreases |s|
  {
    if s != [] && IsSpace(s[|s| - 1]) {
      var p := s[..|s| - 1];
      TrimRightShape(p);
      var k := |TrimRight(s)|;
      assert s[k..] == p[k..] + [s[|s| - 1]];
    }
  }

  /** `rstrip()` never drops a non-whitespace character. */
  lemma TrimRightKeeps(s: string, k: nat)
    requires k < |s| && !IsSpace(s[k])
    ensures k < |TrimRight(s)|
  {
    TrimRightShape(s);
    var n := |TrimRight(s)|;
    forall j | n <= j < |s| ensures IsSpace(s[j]) {
      assert s[n..][j - n] == s[j];
    }
  }

  /** `strip()` keeps a prefix that has no whitespace at either end. */
  lemma StripKeepsPrefix(s: string, p: string)
    requires p != [] && Stripped(p) && StartsWith(s, p)
    ensures StartsWith(Strip(s), p)
  {
    assert s[0] == p[0];
    assert TrimLeft(s) == s;
    assert s[|p| - 1] == p[|p| - 1];
    TrimRightKeeps(s, |p| - 1);
    TrimRightShape(s);
    assert TrimRight(s)[..|p|] == s[..|p|];
  }

  /** `strip()` keeps a suffix that has no whitespace at either end. */
  lemma StripKeepsSuffix(s: string, p: string)
    requires p != [] && Stripped(p) && EndsWith(s, p)
    ensures EndsWith(Strip(s), p)
  {
    var t := TrimLeft(s);
    TrimLeftShape(s);
    assert s[|s| - |p|] == p[0];
    assert t[|t| - |p|..] == s[|s| - |p|..];
    assert t[|t| - 1] == p[|p| - 1];
    assert TrimRight(t) == t;
  }

  /**
   * What `strip()` returns is the slice of `s` that starts after the leading
   * whitespace, and only whitespace follows it.
   */
  lemma StripShape(s: string)
    ensures LeadingSpace(s) + |Strip(s)| <= |s|
    ensures Strip(s) == s[LeadingSpace(s)..LeadingSpace(s) + |Strip(s)|]
    ensures AllSpace(s[..LeadingSpace(s)]) && AllSpace(s[LeadingSpace(s) + |Strip(s)|..])
  {
    var t := TrimLeft(s);
    TrimLeftShape(s);
    TrimRightShape(t);
    var i := LeadingSpace(s);
    assert s[i + |Strip(s)|..] == t[|Strip(s)|..];
  }

  lemma {:induction false} TrimLeftSpaces(w: string, x: string)
    requires AllSpace(w)
    ensures TrimLeft(w + x) == TrimLeft(x)
    decreases |w|
  {
    if w != [] {
      assert (w + x)[1..] == w[1..] + x;
      TrimLeftSpaces(w[1..], x);
    } else {
      assert w + x == x;
    }
  }

  lemma {:induction false} TrimRightSpaces(x: string, w: string)
    requires AllSpace(w)
    ensures TrimRight(x + w) == TrimRight(x)
    decreases |w|
  {
    if w != [] {
      var n := |w| - 1;
      assert (x + w)[..|x + w| - 1] == x + w[..n];
      TrimRightSpaces(x, w[..n]);
    } else {
      assert x + w == x;
    }
  }

  /** `strip()` is determined by its contract: any padding of a stripped string strips back to it. */
  lemma StripPadded(w1: string, m: string, w2: string)
    requires AllSpace(w1) && AllSpace(w2) && Stripped(m)
    ensures Strip(w1 + m + w2) == m
  {
    assert w1 + m + w2 == w1 + (m + w2);
    TrimLeftSpaces(w1, m + w2);
    if m == [] {
      assert m + w2 == w2 + [];
      TrimLeftSpaces(w2, []);
    } else {
      assert TrimLeft(m + w2) == m + w2;
      TrimRightSpaces(m, w2);
    }
  }

  lemma StripIdempotent(s: string)
    ensures Strip(Strip(s)) == Strip(s)
  {
    var r := Strip(s);
    StripStripped(s);
    assert [] + r + [] == r;
    StripPadded([], r, []);
  }

  // ---------------------------------------------------------------------------
  // split()

  /** Length of the run of non-whitespace at the front of `s`. */
  function WordLength(s: string): (n: nat)
    ensures n <= |s|
    ensures s != [] && !IsSpace(s[0]) ==> n > 0
  {
    if s == [] || IsSpace(s[0]) then 0 else 1 + WordLength(s[1..])
  }

  /** The run that `WordLength` measures is all non-whitespace and ends at whitespace or at the end. */
  lemma {:induction false} WordLengthShape(s: string)
    ensures NoSpace(s[..WordLength(s)])
    ensures WordLength(s) == |s| || IsSpace(s[WordLength(s)])
  {
    if s != [] && !IsSpace(s[0]) {
      WordLengthShape(s[1..]);
      var n := WordLength(s);
      assert s[..n] == [s[0]] + s[1..][..n - 1];
    }
  }

  /** A word is not extended across a following whitespace character. */
  lemma {:induction false} WordLengthBeforeSpace(a: string, y: string)
    requires y == [] || IsSpace(y[0])
    ensures WordLength(a + y) == WordLength(a)
  {
    if a == [] {
      assert a + y == y;
    } else if !IsSpace(a[0]) {
      assert (a + y)[1..] == a[1..] + y;
      WordLengthBeforeSpace(a[1..], y);
    }
  }

  /**
   * Python's `str.split()` without arguments: the maximal runs of
   * non-whitespace characters of `s`, in order.
   */
  function Words(s: string): (ws: seq<string>)
    decreases |s|
  {
    if s == [] then []
    else if IsSpace(s[0]) then Words(s[1..])
    else
      var n := WordLength(s);
      [s[..n]] + Words(s[n..])
  }

  /** Every word is non-empty and holds no whitespace. */
  lemma {:induction false} WordsAreWords(s: string)
    ensures forall k :: 0 <= k < |Words(s)| ==> Words(s)[k] != [] && NoSpace(Words(s)[k])
    decreases |s|
  {
    if s != [] {
      if IsSpace(s[0]) {
        WordsAreWords(s[1..]);
      } else {
        var n := WordLength(s);
        WordLengthShape(s);
        WordsAreWords(s[n..]);
      }
    }
  }

  /** A string has no words exactly when it is all whitespace. */
  lemma {:induction false} WordsEmptyIff(s: string)
    ensures Words(s) == [] <==> AllSpace(s)
    decreases |s|
  {
    if s != [] && IsSpace(s[0]) {
      WordsEmptyIff(s[1..]);
      assert AllSpace(s) <==> AllSpace(s[1..]);
    }
  }

  lemma {:induction false} WordsAfterSpaces(w: string, x: string)
    requires AllSpace(w)
    ensures Words(w + x) == Words(x)
    decreases |w|
  {
    if w == [] {
      assert w + x == x;
    } else {
      assert (w + x)[1..] == w[1..] + x;
      WordsAfterSpaces(w[1..], x);
    }
  }

  /** Splitting at one whitespace character splits the words: `(a + c + b).split() == a.split() + b.split()`. */
  lemma {:induction false} WordsAcrossSpace(a: string, c: char, b: string)
    requires IsSpace(c)
    ensures Words(a + [c] + b) == Words(a) + Words(b)
    decreases |a|
  {
    var y := [c] + b;
    assert a + [c] + b == a + y;
    if a == [] {
      assert a + y == y && y[1..] == b;
    } else if IsSpace(a[0]) {
      assert (a + y)[1..] == a[1..] + y;
      assert a[1..] + [c] + b == a[1..] + y;
      WordsAcrossSpace(a[1..], c, b);
    } else {
      var n := WordLength(a);
      WordLengthBeforeSpace(a, y);
      assert (a + y)[..n] == a[..n];
      assert (a + y)[n..] == a[n..] + y;
      assert a[n..] + [c] + b == a[n..] + y;
      WordsAcrossSpace(a[n..], c, b);
    }
  }

  lemma WordsBeforeSpaces(x: string, w: string)
    requires AllSpace(w)
    ensures Words(x + w) == Words(x)
  {
    if w != [] {
      assert x + w == x + [w[0]] + w[1..];
      WordsAcrossSpace(x, w[0], w[1..]);
      WordsEmptyIff(w[1..]);
    } else {
      assert x + w == x;
    }
  }

  /** Stripping never changes the words. */
  lemma WordsOfStrip(s: string)
    ensures Words(Strip(s)) == Words(s)
  {
    var r := Strip(s);
    var i := LeadingSpace(s);
    StripShape(s);
    assert s == s[..i] + (r + s[i + |r|..]);
    WordsAfterSpaces(s[..i], r + s[i + |r|..]);
    WordsBeforeSpaces(r, s[i + |r|..]);
  }

  // ---------------------------------------------------------------------------
  // lower()

  /**
   * `str.lower()` on one character, for the capitals A-Z, the Latin-1 capitals
   * U+00C0-U+00DE (but U+00D7) and the Cyrillic capitals U+0400-U+042F.
   */
  function LowerChar(c: char): char {
    if ('A' <= c <= 'Z') || ('\U{C0}' <= c <= '\U{DE}' && c != '\U{D7}') || ('\U{410}' <= c <= '\U{42F}') then
      (c as int + 32) as char
    else if '\U{400}' <= c <= '\U{40F}' then
      (c as int + 80) as char
    else c
  }

  function Lower(s: string): (r: string)
    ensures |r| == |s|
  {
    seq(|s|, i requires 0 <= i < |s| => LowerChar(s[i]))
  }

  // ---------------------------------------------------------------------------
  // startswith, endswith, in

  predicate StartsWith(s: string, p: string) {
    |p| <= |s| && s[..|p|] == p
  }

  predicate EndsWith(s: string, p: string) {
    |p| <= |s| && s[|s| - |p|..] == p
  }

  predicate OccursAt(s: string, sub: string, i: int) {
    0 <= i && i + |sub| <= |s| && s[i..i + |sub|] == sub
  }

  /** Python's `sub in s`: `sub` occurs at some position of `s`. */
  predicate Contains(s: string, sub: string) {
    exists i | 0 <= i <= |s| - |sub| :: OccursAt(s, sub, i)
  }

  // ---------------------------------------------------------------------------
  // str() of an integer

  function DigitChar(d: int): char
    requires 0 <= d < 10
  {
    ('0' as int + d) as char
  }

  predicate IsDigit(c: char) {
    '0' <= c <= '9'
  }

  function NatDigits(n: nat): (r: string)
    ensures r != [] && forall i :: 0 <= i < |r| ==> IsDigit(r[i])
  {
    if n < 10 then [DigitChar(n)] else NatDigits(n / 10) + [DigitChar(n % 10)]
  }

  /** Python's `str(n)`: optional minus sign, then the decimal digits. */
  function DecimalString(n: int): string {
    if n < 0 then "-" + NatDigits(-n) else NatDigits(n)
  }

  /** The value of a string of decimal digits. */
  function DigitsValue(s: string): int {
    if s == [] then 0 else DigitsValue(s[..|s| - 1]) * 10 + (s[|s| - 1] as int - '0' as int)
  }

  lemma {:induction false} NatDigitsValue(n: nat)
    ensures DigitsValue(NatDigits(n)) == n
  {
    if n >= 10 {
      var s := NatDigits(n);
      assert s[..|s| - 1] == NatDigits(n / 10);
      NatDigitsValue(n / 10);
    }
  }

  /** Reads back what `DecimalString` writes: an optional minus sign, then digits. */
  function ParseDecimal(s: string): int {
    if s != [] && s[0] == '-' then -DigitsValue(s[1..]) else DigitsValue(s)
  }

  lemma DecimalStringRoundTrip(n: int)
    ensures ParseDecimal(DecimalString(n)) == n
  {
    if n < 0 {
      assert DecimalString(n)[1..] == NatDigits(-n);
      NatDigitsValue(-n);
    } else {
      assert IsDigit(NatDigits(n)[0]);
      NatDigitsValue(n);
    }
  }

  /** Distinct integers have distinct decimal renderings. */
  lemma DecimalStringInjective(a: int, b: int)
    ensures DecimalString(a) == DecimalString(b) <==> a == b
  {
    DecimalStringRoundTrip(a);
    DecimalStringRoundTrip(b);
  }
}
