/**
 * Decimal text of integers, as Kotlin's `Int.toString()` writes it and as
 * `String.toIntOrNull()` / `String.toLongOrNull()` read it back.
 */
module Decimal {
  import opened Wrappers

  const INT_MIN: int := -0x8000_0000
  const INT_MAX: int := 0x7FFF_FFFF
  const LONG_MIN: int := -0x8000_0000_0000_0000
  const LONG_MAX: int := 0x7FFF_FFFF_FFFF_FFFF

  predicate IsDigit(c: char) { '0' <= c <= '9' }

  predicate AllDigits(s: string) { forall i :: 0 <= i < |s| ==> IsDigit(s[i]) }

  function DigitChar(d: int): (c: char)
    requires 0 <= d < 10
    ensures IsDigit(c) && c as int - '0' as int == d
  {
    (d + '0' as int) as char
  }

  /** The value of a run of decimal digits, most significant first. */
  function DigitsValue(s: string): nat
    requires AllDigits(s)
  {
    if s == [] then 0
    else DigitsValue(s[..|s| - 1]) * 10 + (s[|s| - 1] as int - '0' as int)
  }

  /** Shortest decimal text of a natural number (no leading zeros). */
  function NatToString(n: nat): (s: string)
    ensures |s| >= 1 && AllDigits(s)
  {
    if n < 10 then [DigitChar(n)] else NatToString(n / 10) + [DigitChar(n % 10)]
  }

  /** `Int.toString()`: a minus sign for negative numbers, then the digits. */
  function IntToString(n: int): (s: string)
    ensures |s| >= 1
    ensures n >= 0 ==> AllDigits(s)
    ensures n < 0 ==> s[0] == '-' && AllDigits(s[1..])
  {
    if n < 0 then "-" + NatToString(-n) else NatToString(n)
  }

  /** Text that `toIntOrNull` accepts, range aside: an optional sign, then at least one decimal digit. */
  predicate IsIntegerText(s: string) {
    |s| >= 1 && (AllDigits(s) || ((s[0] == '-' || s[0] == '+') && |s| >= 2 && AllDigits(s[1..])))
  }

  /** The number such text denotes: the digits' value, negated after a minus sign. */
  function IntegerValue(s: string): int
    requires IsIntegerText(s)
  {
    if AllDigits(s) then DigitsValue(s)
    else if s[0] == '-' then 0 - (DigitsValue(s[1..]) as int)
    else DigitsValue(s[1..])
  }

  /**
   * `toIntOrNull` / `toLongOrNull` for the range [lo, hi]: an optional sign,
   * at least one digit, nothing else, and a value inside the range.
   */
  function ParseInteger(s: string, lo: int, hi: int): (r: Option<int>)
    ensures r.Some? <==> IsIntegerText(s) && lo <= IntegerValue(s) <= hi
    ensures r.Some? ==> r.value == IntegerValue(s)
  {
    if |s| == 0 then None
    else if s[0] == '-' || s[0] == '+' then
      if |s| == 1 || !AllDigits(s[1..]) then None
      else
        var v: int := if s[0] == '-' then 0 - (DigitsValue(s[1..]) as int) else DigitsValue(s[1..]);
        if lo <= v <= hi then Some(v) else None
    else if AllDigits(s) then
      var v := DigitsValue(s);
      if lo <= v <= hi then Some(v) else None
    else None
  }

  /** Leading zeros do not change the value of a run of digits. */
  lemma {:induction false} LeadingZeroValue(s: string)
    requires AllDigits(s)
    ensures AllDigits("0" + s) && DigitsValue("0" + s) == DigitsValue(s)
  {
    if s != [] {
      var t := "0" + s;
      assert t[..|t| - 1] == "0" + s[..|s| - 1];
      LeadingZeroValue(s[..|s| - 1]);
    }
  }

  /** A leading zero after the sign, or with no sign, is accepted and ignored. */
  lemma LeadingZeroIgnored(s: string, lo: int, hi: int)
    requires |s| >= 1 && AllDigits(s)
    ensures ParseInteger("0" + s, lo, hi) == ParseInteger(s, lo, hi)
    ensures ParseInteger("-0" + s, lo, hi) == ParseInteger("-" + s, lo, hi)
    ensures ParseInteger("+0" + s, lo, hi) == ParseInteger(s, lo, hi)
  {
    LeadingZeroValue(s);
    assert ("-0" + s)[1..] == "0" + s && ("-" + s)[1..] == s;
    assert ("+0" + s)[1..] == "0" + s;
  }

  /** Texts `toIntOrNull` reads and texts it refuses. */
  lemma ParseExamples()
    ensures ParseInteger("+5", INT_MIN, INT_MAX) == Some(5)
    ensures ParseInteger("007", INT_MIN, INT_MAX) == Some(7)
    ensures ParseInteger("-0", INT_MIN, INT_MAX) == Some(0)
    ensures ParseInteger("", INT_MIN, INT_MAX) == None
    ensures ParseInteger("-", INT_MIN, INT_MAX) == None
    ensures ParseInteger("1a", INT_MIN, INT_MAX) == None
  {
    assert "00"[..1] == "0";
    assert DigitsValue("00") == 0;
    assert "007"[..2] == "00";
    assert DigitsValue("007") == 7;
    assert DigitsValue("5") == 5;
    assert "+5"[1..] == "5";
    assert "-0"[1..] == "0";
    assert !IsDigit("1a"[1]);
  }

  lemma DigitsOfTwoToThe31()
    ensures AllDigits("2147483648") && DigitsValue("2147483648") == 2147483648
  {
    var t := "2147483648";
    assert DigitsValue(t[..1]) == 2;
    assert t[..2][..1] == t[..1];
    assert DigitsValue(t[..2]) == 21;
    assert t[..3][..2] == t[..2];
    assert DigitsValue(t[..3]) == 214;
    assert t[..4][..3] == t[..3];
    assert DigitsValue(t[..4]) == 2147;
    assert t[..5][..4] == t[..4];
    assert DigitsValue(t[..5]) == 21474;
    assert t[..6][..5] == t[..5];
    assert DigitsValue(t[..6]) == 214748;
    assert t[..7][..6] == t[..6];
    assert DigitsValue(t[..7]) == 2147483;
    assert t[..8][..7] == t[..7];
    assert DigitsValue(t[..8]) == 21474836;
    assert t[..9][..8] == t[..8];
    assert DigitsValue(t[..9]) == 214748364;
    assert t[..10][..9] == t[..9];
    assert DigitsValue(t[..10]) == 2147483648;
    assert t[..10] == t;
  }

  /** The magnitude of `Int.MIN_VALUE` is read only with a minus sign. */
  lemma IntRangeEdges()
    ensures ParseInteger("-2147483648", INT_MIN, INT_MAX) == Some(INT_MIN)
    ensures ParseInteger("2147483648", INT_MIN, INT_MAX) == None
    ensures ParseInteger("2147483648", LONG_MIN, LONG_MAX) == Some(2147483648)
  {
    DigitsOfTwoToThe31();
    assert "-2147483648"[1..] == "2147483648";
  }

  lemma {:induction false} NatToStringValue(n: nat)
    ensures DigitsValue(NatToString(n)) == n
  {
    if n >= 10 {
      var s := NatToString(n);
      NatToStringValue(n / 10);
      assert s[..|s| - 1] == NatToString(n / 10);
    }
  }

  /** Reading back what `Int.toString()` wrote gives the number again. */
  lemma ParseIntToString(n: int, lo: int, hi: int)
    requires lo <= n <= hi
    ensures ParseInteger(IntToString(n), lo, hi) == Some(n)
  {
    var s := IntToString(n);
    if n < 0 {
      assert s[1..] == NatToString(-n);
      NatToStringValue(-n);
    } else {
      NatToStringValue(n);
    }
  }

  /** Different numbers have different decimal texts. */
  lemma IntToStringInjective(m: int, n: int)
    requires IntToString(m) == IntToString(n)
    ensures m == n
  {
    var lo := if m < n then m else n;
    var hi := if m < n then n else m;
    ParseIntToString(m, lo, hi);
    ParseIntToString(n, lo, hi);
  }
}
