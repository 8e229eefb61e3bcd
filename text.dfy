/**
 * The Python string built-ins the handlers apply to their inputs:
 * `str.strip()`, `str.lower()`, `int()` and decimal rendering `str(n)`.
 */
module Text {
  import opened Wrappers

  /** The characters Python's `str.strip()` and `int()` treat as whitespace. */
  predicate IsSpace(c: char) {
    || c == ' '
    || ('\t' <= c <= '\r')
    || ('\U{1C}' <= c <= '\U{1F}')
    || c == '\U{85}' || c == '\U{A0}' || c == '\U{1680}'
    || ('\U{2000}' <= c <= '\U{200A}')
    || c == '\U{2028}' || c == '\U{2029}' || c == '\U{202F}' || c == '\U{205F}' || c == '\U{3000}'
  }

  /** Number of whitespace characters at the front of `s`. */
  function LeadingSpaces(s: string): (n: nat)
    ensures n <= |s|
    ensures forall i :: 0 <= i < n ==> IsSpace(s[i])
    ensures n < |s| ==> !IsSpace(s[n])
  {
    if |s| == 0 || !IsSpace(s[0]) then 0 else 1 + LeadingSpaces(s[1..])
  }

  /** Number of whitespace characters at the end of `s`. */
  function TrailingSpaces(s: string): (n: nat)
    ensures n <= |s|
    ensures forall i :: |s| - n <= i < |s| ==> IsSpace(s[i])
    ensures n < |s| ==> !IsSpace(s[|s| - 1 - n])
  {
    if |s| == 0 || !IsSpace(s[|s| - 1]) then 0 else 1 + TrailingSpaces(s[..|s| - 1])
  }

  /** `s.strip()`: `s` without its leading and trailing whitespace. */
  function Strip(s: string): (r: string)
    ensures |r| <= |s|
    ensures r == [] <==> forall i :: 0 <= i < |s| ==> IsSpace(s[i])
    ensures r != [] ==> !IsSpace(r[0]) && !IsSpace(r[|r| - 1])
    ensures s == [] || (!IsSpace(s[0]) && !IsSpace(s[|s| - 1])) ==> r == s
    ensures exists i :: Framed(s, r, i)
  {
    var l := LeadingSpaces(s);
    if l == |s| then
      assert Framed(s, [], 0);
      []
    else
      var t := TrailingSpaces(s);
      assert !IsSpace(s[l]);
      assert Framed(s, s[l..|s| - t], l);
      s[l..|s| - t]
  }

  /** `r` is the slice of `s` at offset `i`, with only whitespace before and after it. */
  predicate Framed(s: string, r: string, i: nat) {
    && i + |r| <= |s| && r == s[i..i + |r|]
    && (forall k :: 0 <= k < i ==> IsSpace(s[k]))
    && (forall k :: i + |r| <= k < |s| ==> IsSpace(s[k]))
  }

  /** One blank on each side of a body without edge blanks is stripped away. */
  lemma StripOneEach(a: char, body: string, b: char)
    requires IsSpace(a) && IsSpace(b) && body != []
    requires !IsSpace(body[0]) && !IsSpace(body[|body| - 1])
    ensures Strip([a] + body + [b]) == body
  {
    var s := [a] + body + [b];
    assert s[1..] == body + [b];
    assert LeadingSpaces(s) == 1;
    assert s[..|s| - 1] == [a] + body;
    assert TrailingSpaces(s) == 1;
    assert s[1..|s| - 1] == body;
  }

  lemma StripIdempotent(s: string)
    ensures Strip(Strip(s)) == Strip(s)
  {
  }

  function LowerChar(c: char): char {
    if 'A' <= c <= 'Z' then (c as int + 32) as char else c
  }

  /** `s.lower()` on ASCII letters. */
  function Lower(s: string): (r: string)
    ensures |r| == |s|
    ensures forall i :: 0 <= i < |s| ==> r[i] == LowerChar(s[i])
  {
    seq(|s|, i requires 0 <= i < |s| => LowerChar(s[i]))
  }

  /** Lower-casing twice is lower-casing once: stored emails stay normalized. */
  lemma LowerIdempotent(s: string)
    ensures Lower(Lower(s)) == Lower(s)
  {
  }

  /** A string without capitals is its own lower-case form. */
  lemma LowerOfLowercase(s: string)
    requires forall i :: 0 <= i < |s| ==> !('A' <= s[i] <= 'Z')
    ensures Lower(s) == s
  {
  }

  predicate IsDigit(c: char) { '0' <= c <= '9' }

  predicate AllDigits(s: string) {
    forall i :: 0 <= i < |s| ==> IsDigit(s[i])
  }

  function DigitChar(d: nat): (c: char)
    requires d < 10
    ensures IsDigit(c)
  {
    ('0' as int + d) as char
  }

  function DigitValue(c: char): (d: nat)
    requires IsDigit(c)
    ensures d < 10 && DigitChar(d) == c
  {
    c as int - '0' as int
  }

  /** `str(n)` for a natural number: its decimal digits, no leading zero. */
  function DecimalString(n: nat): (r: string)
    ensures |r| >= 1 && AllDigits(r)
    ensures r[0] == '0' <==> n == 0
    decreases n
  {
    if n < 10 then [DigitChar(n)] else DecimalString(n / 10) + [DigitChar(n % 10)]
  }

  /** The value of a string of decimal digits (leading zeros allowed). */
  function ParseDigits(s: string): nat
    requires AllDigits(s)
  {
    if s == [] then 0 else 10 * ParseDigits(s[..|s| - 1]) + DigitValue(s[|s| - 1])
  }

  /**
   * CPython 3.11 and later refuse to convert a decimal string of more than
   * this many digits (`sys.get_int_max_str_digits()`), raising ValueError.
   */
  const MaxStrDigits: nat := 4300

  /** `s` without one leading sign character. */
  function Unsigned(s: string): (u: string)
    ensures |s| > 0 && (s[0] == '+' || s[0] == '-') ==> u == s[1..]
    ensures |s| == 0 || (s[0] != '+' && s[0] != '-') ==> u == s
  {
    if |s| > 0 && (s[0] == '+' || s[0] == '-') then s[1..] else s
  }

  /**
   * `int(s)` on an already stripped string: an optional sign followed by
   * one to 4300 decimal digits; anything else raises ValueError (None).
   */
  function ParseInt(s: string): (r: Option<int>)
    ensures r.Some? <==> 1 <= |Unsigned(s)| <= MaxStrDigits && AllDigits(Unsigned(s))
    ensures r.Some? && s[0] == '-' ==> r.value == -(ParseDigits(Unsigned(s)) as int)
    ensures r.Some? && s[0] != '-' ==> r.value == ParseDigits(Unsigned(s))
  {
    var u := Unsigned(s);
    if u == [] || |u| > MaxStrDigits || !AllDigits(u) then None
    else
      var v: int := ParseDigits(u);
      Some(if s[0] == '-' then -v else v)
  }

  /** Reading back what `str(n)` wrote gives `n`. */
  lemma {:induction false} DecimalRoundTrip(n: nat)
    ensures ParseDigits(DecimalString(n)) == n
    decreases n
  {
    if n >= 10 {
      var p := DecimalString(n / 10);
      var s := p + [DigitChar(n % 10)];
      assert s[..|s| - 1] == p;
      DecimalRoundTrip(n / 10);
    }
  }

  /** `int(str(n)) == n`, unless `str(n)` is over the digit limit. */
  lemma ParseIntOfDecimal(n: nat)
    ensures |DecimalString(n)| <= MaxStrDigits ==> ParseInt(DecimalString(n)) == Some(n)
    ensures |DecimalString(n)| > MaxStrDigits ==> ParseInt(DecimalString(n)) == None
  {
    DecimalRoundTrip(n);
  }

  /** A number below 1000 is well within the digit limit. */
  lemma SmallDecimal(n: nat)
    requires n < 1000
    ensures |DecimalString(n)| <= 3
  {
    assert Pow10(3) == 1000;
    DecimalLengthAtMost(n, 3);
  }

  function Pow10(k: nat): (p: nat)
    ensures p >= 1
  {
    if k == 0 then 1 else 10 * Pow10(k - 1)
  }

  /** A number with k+1 digits is written with exactly k+1 characters. */
  lemma {:induction false} DecimalLength(n: nat, k: nat)
    requires Pow10(k) <= n < Pow10(k + 1)
    ensures |DecimalString(n)| == k + 1
    decreases k
  {
    if k > 0 {
      assert Pow10(k) == 10 * Pow10(k - 1);
      assert Pow10(k + 1) == 10 * Pow10(k);
      DecimalLength(n / 10, k - 1);
    }
  }

  /** A number below 10^w is written with at most w characters. */
  lemma {:induction false} DecimalLengthAtMost(n: nat, w: nat)
    requires 1 <= w && n < Pow10(w)
    ensures |DecimalString(n)| <= w
    decreases n
  {
    if n >= 10 {
      assert Pow10(1) == 10;
      assert Pow10(w) == 10 * Pow10(w - 1);
      DecimalLengthAtMost(n / 10, w - 1);
    }
  }

  function Zeros(k: nat): (z: string)
    ensures |z| == k && AllDigits(z)
  {
    if k == 0 then [] else Zeros(k - 1) + ['0']
  }

  /** `n` written with at least `w` digits, zero-padded on the left (`%02d`, `%04d`). */
  function ZeroPad(n: nat, w: nat): string {
    var d := DecimalString(n);
    if |d| >= w then d else Zeros(w - |d|) + d
  }

  lemma {:induction false} ParseZeros(k: nat)
    ensures ParseDigits(Zeros(k)) == 0
  {
    if k > 0 {
      assert Zeros(k)[..k - 1] == Zeros(k - 1);
      ParseZeros(k - 1);
    }
  }

  /** Leading zeros do not change the value of a digit string. */
  lemma {:induction false} ParseLeadingZeros(k: nat, s: string)
    requires AllDigits(s)
    ensures AllDigits(Zeros(k) + s) && ParseDigits(Zeros(k) + s) == ParseDigits(s)
    decreases |s|
  {
    var t := Zeros(k) + s;
    assert AllDigits(t) by {
      forall i | 0 <= i < |t| ensures IsDigit(t[i]) {
        if i < k { assert t[i] == Zeros(k)[i]; } else { assert t[i] == s[i - k]; }
      }
    }
    if s == [] {
      assert t == Zeros(k);
      ParseZeros(k);
    } else {
      assert t[..|t| - 1] == Zeros(k) + s[..|s| - 1];
      ParseLeadingZeros(k, s[..|s| - 1]);
    }
  }

  /** A zero-padded number below 10^w has exactly w digits and reads back as itself. */
  lemma ZeroPadFields(n: nat, w: nat)
    requires 1 <= w && n < Pow10(w)
    ensures |ZeroPad(n, w)| == w && AllDigits(ZeroPad(n, w))
    ensures ParseDigits(ZeroPad(n, w)) == n
  {
    var d := DecimalString(n);
    DecimalLengthAtMost(n, w);
    DecimalRoundTrip(n);
    if |d| < w {
      var z := Zeros(w - |d|) + d;
      ParseLeadingZeros(w - |d|, d);
      assert ZeroPad(n, w) == z;
    }
  }
}
