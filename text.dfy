/** Character and string primitives the scraper and the views rely on:
    Python's `str.isdigit` (ASCII digits), `str.lower`, `str.strip`,
    `in` on strings, `int(...)`, `float(...)` on digit/dot strings and
    the decimal rendering of integers in f-strings. */
module Text {
  import opened Wrappers

  predicate IsDigit(c: char) { '0' <= c <= '9' }

  /** A character kept by the price filter and matched by `[0-9.]`. */
  predicate IsNumberChar(c: char) { IsDigit(c) || c == '.' }

  predicate AllDigits(s: string) { forall i :: 0 <= i < |s| ==> IsDigit(s[i]) }

  predicate AllNumberChars(s: string) { forall i :: 0 <= i < |s| ==> IsNumberChar(s[i]) }

  predicate HasDigit(s: string) { exists i :: 0 <= i < |s| && IsDigit(s[i]) }

  /** Python's `str.isspace` (and what `str.strip` removes): the ASCII
      controls 9-13 and 28-31, the space, and the Unicode separators
      U+0085, U+00A0, U+1680, U+2000-U+200A, U+2028, U+2029, U+202F,
      U+205F and U+3000. */
  predicate IsSpace(c: char) {
    || ('\t' <= c <= '\r')
    || ('\U{1C}' <= c <= ' ')
    || c == '\U{85}' || c == '\U{A0}' || c == '\U{1680}'
    || ('\U{2000}' <= c <= '\U{200A}')
    || c == '\U{2028}' || c == '\U{2029}' || c == '\U{202F}' || c == '\U{205F}' || c == '\U{3000}'
  }

  function DigitValue(c: char): (d: nat)
    requires IsDigit(c)
    ensures d < 10
  {
    c as int - '0' as int
  }

  function DigitChar(d: nat): (c: char)
    requires d < 10
    ensures IsDigit(c) && DigitValue(c) == d
  {
    (d + '0' as int) as char
  }

  /** ASCII lower-casing of one character. */
  function LowerChar(c: char): char {
    if 'A' <= c <= 'Z' then (c as int + 32) as char else c
  }

  function Lower(s: string): string {
    seq(|s|, i requires 0 <= i < |s| => LowerChar(s[i]))
  }

  lemma LowerSlice(s: string, i: int, j: int)
    requires 0 <= i <= j <= |s|
    ensures Lower(s)[i..j] == Lower(s[i..j])
  {
  }

  /** `t` occurs in `s` starting at position `i`. */
  predicate OccursAt(s: string, t: string, i: int) {
    0 <= i <= |s| - |t| && s[i..i + |t|] == t
  }

  /** Python's `t in s` for strings. */
  predicate Contains(s: string, t: string) {
    exists i | 0 <= i <= |s| - |t| :: OccursAt(s, t, i)
  }

  /** Python's `s.replace(' ', '+')`. */
  function ReplaceSpaces(s: string): string {
    seq(|s|, i requires 0 <= i < |s| => if s[i] == ' ' then '+' else s[i])
  }

  /** The end of the run of whitespace that starts at `i`. */
  function SpacesFrom(s: string, i: nat): (j: nat)
    requires i <= |s|
    ensures i <= j <= |s| && (j == |s| || !IsSpace(s[j]))
    ensures forall k :: i <= k < j ==> IsSpace(s[k])
    decreases |s| - i
  {
    if i < |s| && IsSpace(s[i]) then SpacesFrom(s, i + 1) else i
  }

  /** The start of the run of whitespace that ends at `j`, not going below
      `lo`. */
  function SpacesBefore(s: string, lo: nat, j: nat): (i: nat)
    requires lo <= j <= |s|
    ensures lo <= i <= j && (i == lo || !IsSpace(s[i - 1]))
    ensures forall k :: i <= k < j ==> IsSpace(s[k])
    decreases j
  {
    if lo < j && IsSpace(s[j - 1]) then SpacesBefore(s, lo, j - 1) else j
  }

  /** Python's `s.strip()`: removes leading and trailing whitespace only. */
  function Strip(s: string): (r: string)
    ensures r == [] || (!IsSpace(r[0]) && !IsSpace(r[|r| - 1]))
  {
    var i := SpacesFrom(s, 0);
    s[i..SpacesBefore(s, i, |s|)]
  }

  /** What `Strip` removes is whitespace, at the two ends only: the result
      is the run of `s` from index `i` on, and everything before `i` and
      after the run is whitespace. */
  lemma StripRemovesOnlyEnds(s: string)
    ensures var r, i := Strip(s), SpacesFrom(s, 0);
            && i + |r| <= |s|
            && (forall k :: 0 <= k < |r| ==> r[k] == s[i + k])
            && (forall k :: 0 <= k < i ==> IsSpace(s[k]))
            && (forall k :: i + |r| <= k < |s| ==> IsSpace(s[k]))
  {
  }

  /** A string that neither starts nor ends with whitespace is left alone. */
  lemma StripUnchanged(s: string)
    requires s == [] || (!IsSpace(s[0]) && !IsSpace(s[|s| - 1]))
    ensures Strip(s) == s
  {
  }

  /** Value of a string of decimal digits, most significant digit first. */
  function DigitsValue(s: string): nat
    requires AllDigits(s)
  {
    if s == [] then 0 else DigitsValue(s[..|s| - 1]) * 10 + DigitValue(s[|s| - 1])
  }

  /** Decimal rendering of a natural number (what `f"{n}"` prints). */
  function NatToString(n: nat): string {
    if n < 10 then [DigitChar(n)] else NatToString(n / 10) + [DigitChar(n % 10)]
  }

  /** The rendering is a non-empty run of digits, without a leading zero,
      whose value is the number. */
  lemma {:induction false} NatToStringDigits(n: nat)
    ensures var s := NatToString(n);
            && |s| > 0 && AllDigits(s)
            && DigitsValue(s) == n
            && (s[0] != '0' || s == "0")
    decreases n
  {
    if n >= 10 {
      NatToStringDigits(n / 10);
      var p := NatToString(n / 10);
      var s := p + [DigitChar(n % 10)];
      assert s[..|s| - 1] == p;
    }
  }

  /** Decimal rendering of an integer, with a leading '-' when negative. */
  function IntToString(n: int): string {
    if n < 0 then "-" + NatToString(-n) else NatToString(n)
  }

  /** The rendering of an integer starts with '-' exactly when it is negative. */
  lemma IntToStringSign(n: int)
    ensures var s := IntToString(n);
            |s| > 0 && (s[0] == '-' <==> n < 0)
  {
    NatToStringDigits(if n < 0 then -n else n);
  }

  /** The most digits `int()` converts from a string, and `str()` renders:
      the default of `sys.get_int_max_str_digits()` in Python 3.11 and in
      3.10.7, 3.9.14, 3.8.14 and 3.7.14. A string with more digits, or an
      integer whose rendering would have more, raises `ValueError`. */
  const IntMaxStrDigits: nat := 4300

  /** The number of ASCII digits in `s`. */
  function DigitCount(s: string): nat {
    if s == [] then 0 else (if IsDigit(s[0]) then 1 else 0) + DigitCount(s[1..])
  }

  /** A string of digits counts every character. */
  lemma {:induction false} DigitCountAllDigits(s: string)
    requires AllDigits(s)
    ensures DigitCount(s) == |s|
  {
    if s != [] {
      DigitCountAllDigits(s[1..]);
    }
  }

  /** Python's `int(s)` on a string: surrounding whitespace, an optional
      sign, then at least one ASCII digit, and no more digits than
      `IntMaxStrDigits`; anything else is a ValueError, here `None`. */
  function ParseInt(s: string): Option<int> {
    if DigitCount(s) > IntMaxStrDigits then None else ParseSigned(Strip(s))
  }

  /** An optional sign followed by at least one digit. */
  function ParseSigned(t: string): Option<int> {
    if |t| > 0 && (t[0] == '-' || t[0] == '+') then
      var d := t[1..];
      if |d| > 0 && AllDigits(d) then
        Some(if t[0] == '-' then -(DigitsValue(d) as int) else DigitsValue(d))
      else None
    else if |t| > 0 && AllDigits(t) then Some(DigitsValue(t))
    else None
  }

  /** A string that starts with '-' or a digit and ends with a digit has
      nothing to strip. */
  lemma ParseIntUnpadded(s: string)
    requires |s| > 0 && (s[0] == '-' || IsDigit(s[0])) && IsDigit(s[|s| - 1])
    ensures ParseInt(s) == if DigitCount(s) > IntMaxStrDigits then None else ParseSigned(s)
  {
    StripUnchanged(s);
  }

  /** More digits than the limit are refused, whatever else the string
      holds. */
  lemma TooManyDigitsRefused(s: string)
    requires DigitCount(s) > IntMaxStrDigits
    ensures ParseInt(s).None?
  {
  }

  /** The digits of a rendered integer are those of its magnitude. */
  lemma IntToStringDigitCount(n: int)
    ensures DigitCount(IntToString(n)) == |NatToString(if n < 0 then -n else n)|
  {
    var d := NatToString(if n < 0 then -n else n);
    NatToStringDigits(if n < 0 then -n else n);
    DigitCountAllDigits(d);
    if n < 0 {
      assert IntToString(n)[1..] == d;
    }
  }

  /** Reading the sign and digits of a rendered integer gives the integer. */
  lemma ParseSignedRoundTrip(n: int)
    ensures ParseSigned(IntToString(n)) == Some(n)
  {
    var s := IntToString(n);
    NatToStringDigits(if n < 0 then -n else n);
    if n < 0 {
      var d := NatToString(-n);
      assert s[1..] == d;
    }
  }

  /** `str()` renders `n`, and `int()` accepts the rendering: it has at
      most `IntMaxStrDigits` digits. */
  predicate Renderable(n: int) {
    |NatToString(if n < 0 then -n else n)| <= IntMaxStrDigits
  }

  /** Rendering an integer of at most `IntMaxStrDigits` digits and parsing
      it back gives the integer. */
  lemma ParseIntRoundTrip(n: int)
    requires Renderable(n)
    ensures ParseInt(IntToString(n)) == Some(n)
  {
    var s := IntToString(n);
    NatToStringDigits(if n < 0 then -n else n);
    if n < 0 {
      var d := NatToString(-n);
      assert s[1..] == d;
      assert s[|s| - 1] == d[|d| - 1];
    }
    IntToStringDigitCount(n);
    ParseIntUnpadded(s);
    ParseSignedRoundTrip(n);
  }

  /** Rendering is injective: distinct integers give distinct strings. */
  lemma IntToStringInjective(a: int, b: int)
    requires IntToString(a) == IntToString(b)
    ensures a == b
  {
    ParseSignedRoundTrip(a);
    ParseSignedRoundTrip(b);
  }

  function Pow10(n: nat): (p: nat)
    ensures p >= 1
  {
    if n == 0 then 1 else 10 * Pow10(n - 1)
  }

  lemma DivTenBelow(n: nat, p: nat)
    ensures n / 10 < p <==> n < 10 * p
  {
  }

  /** A natural number renders to at most `k` digits exactly when it is
      below `10^k`. */
  lemma {:induction false} NatToStringLength(n: nat, k: nat)
    requires k >= 1
    ensures |NatToString(n)| <= k <==> n < Pow10(k)
    decreases n
  {
    assert Pow10(k) == 10 * Pow10(k - 1);
    if n >= 10 {
      if k == 1 {
        assert Pow10(1) == 10;
      } else {
        NatToStringLength(n / 10, k - 1);
        DivTenBelow(n, Pow10(k - 1));
      }
    }
  }

  /** `str()` renders exactly the integers of magnitude below
      `10^IntMaxStrDigits`. */
  lemma RenderableIff(n: int)
    ensures Renderable(n) <==> -(Pow10(IntMaxStrDigits) as int) < n < Pow10(IntMaxStrDigits)
  {
    NatToStringLength(if n < 0 then -n else n, IntMaxStrDigits);
  }

  /** A run of `k` nines. */
  function Nines(k: nat): string {
    seq(k, _ => '9')
  }

  /** A run of `k` nines is the number `10^k - 1`. */
  lemma {:induction false} NinesValue(k: nat)
    ensures AllDigits(Nines(k))
    ensures DigitsValue(Nines(k)) == Pow10(k) - 1
  {
    if k > 0 {
      assert Nines(k)[..k - 1] == Nines(k - 1);
      NinesValue(k - 1);
    }
  }

  lemma ParseZero()
    ensures ParseInt("0") == Some(0)
  {
    ParseIntUnpadded("0");
  }

  /** `int()` reads a run of `k` nines, up to the digit limit, as
      `10^k - 1`. */
  lemma ParseNines(k: nat)
    requires 1 <= k <= IntMaxStrDigits
    ensures ParseInt(Nines(k)) == Some(Pow10(k) - 1)
  {
    var nines := Nines(k);
    NinesValue(k);
    DigitCountAllDigits(nines);
    ParseIntUnpadded(nines);
  }

  /** Index of the first occurrence of `c` in `s`. */
  function IndexOf(s: string, c: char): (k: nat)
    requires c in s
    ensures k < |s| && s[k] == c && c !in s[..k]
  {
    if s[0] == c then 0
    else
      var k := IndexOf(s[1..], c) + 1;
      assert s[..k] == [s[0]] + s[1..][..k - 1];
      k
  }

  /** Python's `float(s)` on a string made only of digits and dots: at most
      one dot and at least one digit ("5", "4.5", ".5", "5."); otherwise
      a ValueError, here `None`. */
  function ParseDecimal(s: string): (r: Option<real>)
    requires AllNumberChars(s)
  {
    if '.' !in s then
      if s == [] then None else Some(DigitsValue(s) as real)
    else
      var k := IndexOf(s, '.');
      var whole, frac := s[..k], s[k + 1..];
      if '.' in frac || (whole == [] && frac == []) then None
      else Some(DigitsValue(whole) as real + DigitsValue(frac) as real / Pow10(|frac|) as real)
  }

  /** `float` succeeds exactly on strings with at most one dot and at least
      one digit, and what it returns is never negative. */
  lemma ParseDecimalDefined(s: string)
    requires AllNumberChars(s)
    ensures ParseDecimal(s).Some? <==> multiset(s)['.'] <= 1 && HasDigit(s)
    ensures ParseDecimal(s).Some? ==> ParseDecimal(s).value >= 0.0
  {
    if '.' !in s {
      assert multiset(s)['.'] == 0;
      if s != [] {
        assert s[0] != '.';
      }
    } else {
      DottedDefined(s);
    }
  }

  lemma DottedDefined(s: string)
    requires AllNumberChars(s) && '.' in s
    ensures var k := IndexOf(s, '.');
            && (multiset(s)['.'] <= 1 <==> '.' !in s[k + 1..])
            && ('.' !in s[k + 1..] ==> (HasDigit(s) <==> k > 0 || k + 1 < |s|))
  {
    var k := IndexOf(s, '.');
    DotCountSplit(s, k);
    if '.' !in s[k + 1..] {
      DigitAroundDot(s, k);
    }
  }

  lemma DotCountSplit(s: string, k: nat)
    requires k < |s| && s[k] == '.' && '.' !in s[..k]
    ensures multiset(s)['.'] == 1 + multiset(s[k + 1..])['.']
  {
    assert s == s[..k] + [s[k]] + s[k + 1..];
    assert multiset(s[..k])['.'] == 0;
  }

  lemma DigitAroundDot(s: string, k: nat)
    requires AllNumberChars(s) && k < |s| && s[k] == '.'
    requires '.' !in s[..k] && '.' !in s[k + 1..]
    ensures HasDigit(s) <==> k > 0 || k + 1 < |s|
  {
    if k > 0 {
      assert s[0] in s[..k];
      assert IsDigit(s[0]);
    } else if k + 1 < |s| {
      assert s[k + 1] in s[k + 1..];
      assert IsDigit(s[k + 1]);
    } else {
      forall i | 0 <= i < |s|
        ensures !IsDigit(s[i])
      {
        assert i == k;
      }
    }
  }

  /** A rendered natural number parses back as the same value. */
  lemma ParseDecimalOfNat(n: nat)
    ensures AllNumberChars(NatToString(n))
    ensures ParseDecimal(NatToString(n)) == Some(n as real)
  {
    NatToStringDigits(n);
  }
}
