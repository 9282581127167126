// SkSL::stoi: an integer literal's text (with an optional unsigned suffix) read
// through the C library's strtoull in base 0, accepted when the whole text was
// consumed, nothing overflowed and the value fits in 32 bits (src/sksl/SkSLString.cpp).
module SkSLString {
  import opened Text

  const TWO_64: nat := 0x1_0000_0000_0000_0000
  const ULLONG_MAX: nat := TWO_64 - 1
  const TWO_63: nat := 0x8000_0000_0000_0000
  const UINT32_MAX: nat := 0xFFFF_FFFF

  /** The value strtoull gives a character as a digit: 0-9, then letters from 10 up; 36 for anything else. */
  function LetterDigit(c: char): (d: nat)
    ensures d <= 36
    ensures IsDigit(c) ==> d == c as int - '0' as int
  {
    if IsDigit(c) then c as int - '0' as int
    else if 'a' <= c <= 'z' then c as int - 'a' as int + 10
    else if 'A' <= c <= 'Z' then c as int - 'A' as int + 10
    else 36
  }

  predicate IsDigitIn(c: char, base: nat) { LetterDigit(c) < base }

  /** The first position from `i` on that is not white space. */
  function SkipSpace(s: string, i: nat): (j: nat)
    requires i <= |s|
    ensures i <= j <= |s| && (j < |s| ==> !IsSpace(s[j]))
    ensures forall k :: i <= k < j ==> IsSpace(s[k])
    decreases |s| - i
  {
    if i < |s| && IsSpace(s[i]) then SkipSpace(s, i + 1) else i
  }

  /** The end of the run of digits of `base` starting at `i`. */
  function RunEnd(s: string, i: nat, base: nat): (j: nat)
    requires i <= |s|
    ensures i <= j <= |s| && (j < |s| ==> !IsDigitIn(s[j], base))
    ensures forall k :: i <= k < j ==> IsDigitIn(s[k], base)
    decreases |s| - i
  {
    if i < |s| && IsDigitIn(s[i], base) then RunEnd(s, i + 1, base) else i
  }

  /** The value of the digits s[i..j] in `base`, most significant first. */
  function RunValue(s: string, i: nat, j: nat, base: nat): nat
    requires i <= j <= |s|
    decreases j
  {
    if j == i then 0 else RunValue(s, i, j - 1, base) * base + LetterDigit(s[j - 1])
  }

  /** What strtoull returns, where *endptr ends up, and whether it set errno to ERANGE. */
  datatype Conversion = Conversion(result: nat, end: nat, rangeError: bool)

  /** The radix base 0 selects at `j`, and where the digits start: "0x" before a hex digit, a leading 0, or decimal. */
  function BaseAt(s: string, j: nat): (r: (nat, nat))
    requires j <= |s|
    ensures r.0 in {8, 10, 16} && j <= r.1 <= |s|
  {
    if j + 2 < |s| && s[j] == '0' && (s[j + 1] == 'x' || s[j + 1] == 'X') && IsDigitIn(s[j + 2], 16) then (16, j + 2)
    else if j < |s| && s[j] == '0' then (8, j)
    else (10, j)
  }

  /**
   * strtoull(s, &end, 0): white space, an optional sign, the base prefix, then the
   * longest run of digits. With no digits nothing is converted and *endptr is the
   * start; a magnitude past ULLONG_MAX gives ULLONG_MAX and ERANGE; a minus sign
   * negates modulo 2^64.
   */
  function StrToULL(s: string): (c: Conversion)
    ensures c.end <= |s| && c.result <= ULLONG_MAX
    ensures c.rangeError ==> c.result == ULLONG_MAX
  {
    var i := SkipSpace(s, 0);
    var neg := i < |s| && s[i] == '-';
    var j := if i < |s| && (s[i] == '-' || s[i] == '+') then i + 1 else i;
    var (base, digits) := BaseAt(s, j);
    var e := RunEnd(s, digits, base);
    if e == digits then Conversion(0, 0, false)
    else
      var mag := RunValue(s, digits, e, base);
      if mag > ULLONG_MAX then Conversion(ULLONG_MAX, e, true)
      else Conversion(if neg then (TWO_64 - mag) % TWO_64 else mag, e, false)
  }

  /** static_cast<int64_t> of an unsigned 64-bit value: two's complement. */
  function ToInt64(u: nat): (r: int)
    requires u <= ULLONG_MAX
    ensures -(TWO_63 as int) <= r < TWO_63 && (r - u) % TWO_64 == 0
    ensures u < TWO_63 ==> r == u
  {
    if u < TWO_63 then u else u - TWO_64
  }

  /** The boolean stoi returns and the value left in *value. */
  datatype StoiResult = StoiResult(ok: bool, value: int)

  /** The text with one trailing 'u' or 'U' removed. */
  function WithoutSuffix(s: string): (t: string)
    requires |s| > 0
    ensures t == s || (t == s[..|s| - 1] && s[|s| - 1] in {'u', 'U'})
  {
    if s[|s| - 1] == 'u' || s[|s| - 1] == 'U' then s[..|s| - 1] else s
  }

  /**
   * SkSL::stoi. An empty text fails and leaves *value (`value`) alone; otherwise the
   * converted number is written, and the call succeeds exactly when the conversion
   * consumed the whole text, raised no range error and gave at most 0xFFFFFFFF.
   */
  function Stoi(s: string, value: int): (r: StoiResult)
    ensures |s| == 0 ==> r == StoiResult(false, value)
    ensures r.ok ==> 0 <= r.value <= UINT32_MAX
    ensures |s| > 0 ==>
      var c := StrToULL(WithoutSuffix(s));
      r.value == ToInt64(c.result) && (r.ok <==> c.end == |WithoutSuffix(s)| && !c.rangeError && c.result <= UINT32_MAX)
  {
    if |s| == 0 then StoiResult(false, value)
    else
      var str := WithoutSuffix(s);
      var c := StrToULL(str);
      StoiResult(c.end == |str| && !c.rangeError && c.result <= UINT32_MAX, ToInt64(c.result))
  }

  /** Digit runs in base 10 have the value DigitsValue gives them. */
  lemma {:induction false} RunValueDecimal(s: string, j: nat)
    requires j <= |s| && forall k :: 0 <= k < j ==> IsDigit(s[k])
    ensures RunValue(s, 0, j, 10) == DigitsValue(s[..j])
    decreases j
  {
    if j > 0 {
      RunValueDecimal(s, j - 1);
      assert s[..j][..j - 1] == s[..j - 1];
    }
  }

  /** Only zero's decimal text starts with '0'. */
  lemma {:induction false} NatToStringLead(n: nat)
    ensures NatToString(n)[0] == '0' <==> n == 0
    decreases n
  {
    if n >= 10 {
      NatToStringLead(n / 10);
      assert NatToString(n)[0] == NatToString(n / 10)[0];
    }
  }

  /** A decimal text runs to its end in base 10. */
  lemma {:induction false} DecimalRunEnd(s: string, i: nat, m: nat)
    requires i <= m <= |s| && forall k :: 0 <= k < m ==> IsDigit(s[k])
    requires m < |s| ==> !IsDigit(s[m]) && LetterDigit(s[m]) >= 10
    ensures RunEnd(s, i, 10) == m
    decreases m - i
  {
    if i < m {
      DecimalRunEnd(s, i + 1, m);
    }
  }

  /**
   * A decimal numeral is accepted exactly when its value fits in 32 bits, and then
   * the value is the number; past ULLONG_MAX the written value is ULLONG_MAX cast, -1.
   */
  lemma StoiDecimal(n: nat, value: int)
    ensures var r := Stoi(NatToString(n), value);
      (r.ok <==> n <= UINT32_MAX) && (r.ok ==> r.value == n) &&
      (n > ULLONG_MAX ==> r.value == -1)
  {
    var s := NatToString(n);
    assert WithoutSuffix(s) == s by {
      assert IsDigit(s[|s| - 1]);
    }
    assert SkipSpace(s, 0) == 0 by {
      assert IsDigit(s[0]);
    }
    DecimalRunEnd(s, 0, |s|);
    DecimalRunEnd(s, 1, |s|);
    RunValueDecimal(s, |s|);
    assert s[..|s|] == s;
    NatToStringValue(n);
    NatToStringLead(n);
    if n == 0 {
      assert s == "0";
      assert RunEnd(s, 0, 8) == 1;
    }
  }

  /**
   * A failed conversion still writes what was read: a 32-bit numeral followed by a
   * letter other than the suffix fails, leaving the numeral's value.
   */
  lemma StoiWritesPrefix(n: nat, letter: char, value: int)
    requires n <= UINT32_MAX && 'g' <= letter <= 't'
    ensures Stoi(NatToString(n) + [letter], value) == StoiResult(false, n)
  {
    var d := NatToString(n);
    var s := d + [letter];
    assert WithoutSuffix(s) == s;
    assert s[0] == d[0] && IsDigit(s[0]);
    assert SkipSpace(s, 0) == 0;
    assert forall k :: 0 <= k < |d| ==> s[k] == d[k];
    NatToStringLead(n);
    NatToStringValue(n);
    assert s[..|d|] == d;
    if n == 0 {
      assert d == "0" && |s| == 2;
      assert RunEnd(s, 1, 8) == 1;
    } else {
      DecimalRunEnd(s, 0, |d|);
      RunValueDecimal(s, |d|);
    }
  }

  /** One 'u' or 'U' after a text that does not already end in one is ignored. */
  lemma StoiSuffix(t: string, u: char, value: int)
    requires |t| > 0 && t[|t| - 1] !in {'u', 'U'} && u in {'u', 'U'}
    ensures Stoi(t + [u], value) == Stoi(t, value)
  {
    assert (t + [u])[..|t|] == t;
  }

  /** At most one suffix is stripped: a text ending in two of them never converts. */
  lemma StoiDoubleSuffix(t: string, value: int)
    requires |t| >= 2 && t[|t| - 1] in {'u', 'U'} && t[|t| - 2] in {'u', 'U'}
    ensures !Stoi(t, value).ok
  {
    var str := WithoutSuffix(t);
    assert str[|str| - 1] in {'u', 'U'};
    var c := StrToULL(str);
    var i := SkipSpace(str, 0);
    var j := if i < |str| && (str[i] == '-' || str[i] == '+') then i + 1 else i;
    var (base, digits) := BaseAt(str, j);
    var e := RunEnd(str, digits, base);
    assert !IsDigitIn(str[|str| - 1], base);
    assert e < |str|;
  }

  /**
   * The text as written: the bare suffix "u" leaves nothing to convert, strtoull
   * then reports its end at the start, which is also the (empty) text's end, so
   * stoi succeeds with 0.
   */
  lemma StoiAcceptsBareSuffix(value: int)
    ensures Stoi("u", value) == StoiResult(true, 0)
    ensures Stoi("U", value) == StoiResult(true, 0)
  {
    assert WithoutSuffix("u") == [];
    assert WithoutSuffix("U") == [];
  }

  /** The evidently intended stoi: a text with no digits left after the suffix fails too. */
  function StoiChecked(s: string, value: int): (r: StoiResult)
    ensures r.ok ==> 0 <= r.value <= UINT32_MAX
  {
    var r := Stoi(s, value);
    if |s| > 0 && |WithoutSuffix(s)| == 0 then StoiResult(false, r.value) else r
  }

  /**
   * The corrected stoi accepts only texts with a digit, differs from the written one
   * only on "u" and "U", and still accepts every 32-bit decimal numeral.
   */
  lemma StoiCheckedNeedsDigits(s: string, value: int)
    ensures StoiChecked(s, value).ok ==> exists k :: 0 <= k < |s| && IsDigit(s[k])
    ensures StoiChecked(s, value) != Stoi(s, value) ==> s == "u" || s == "U"
    ensures StoiChecked(s, value).value == Stoi(s, value).value
  {
    var r := StoiChecked(s, value);
    if r.ok {
      var str := WithoutSuffix(s);
      var c := StrToULL(str);
      var i := SkipSpace(str, 0);
      var j := if i < |str| && (str[i] == '-' || str[i] == '+') then i + 1 else i;
      var (base, digits) := BaseAt(str, j);
      var e := RunEnd(str, digits, base);
      assert e != digits;
      assert IsDigitIn(str[digits], base);
      if base == 16 {
        assert str[j] == '0';
        assert IsDigit(s[j]);
      } else {
        assert IsDigit(s[digits]);
      }
    }
    if |s| > 0 && |WithoutSuffix(s)| == 0 {
      assert |s| == 1;
      assert s == [s[0]];
    }
  }

  /** The corrected stoi keeps the accepted decimal numerals. */
  lemma StoiCheckedDecimal(n: nat, value: int)
    ensures var r := StoiChecked(NatToString(n), value);
      (r.ok <==> n <= UINT32_MAX) && (r.ok ==> r.value == n)
  {
    StoiDecimal(n, value);
    var s := NatToString(n);
    assert IsDigit(s[0]);
  }
}
