/**
 * Java's fixed-width integers and the two library calls the account numbering
 * rule relies on: `Integer.parseInt(String)` and `int + ""` (Integer.toString).
 * Dafny integers are unbounded, so the widths and the wrap-around are explicit.
 */
module JavaNumbers {
  import opened Wrappers

  const MinInt: int := -0x8000_0000
  const MaxInt: int := 0x7fff_ffff
  const MinLong: int := -0x8000_0000_0000_0000
  const MaxLong: int := 0x7fff_ffff_ffff_ffff

  /** Java `int`. */
  type Int32 = x: int | MinInt <= x <= MaxInt
  /** Java `long` / `Long` (null is modelled separately, with Option). */
  type Long = x: int | MinLong <= x <= MaxLong

  /** Two's-complement wrap-around of an `int` expression. */
  function WrapInt32(x: int): (r: Int32)
    ensures MinInt <= x <= MaxInt ==> r == x
    ensures x == MaxInt + 1 ==> r == MinInt
  {
    (x - MinInt) % 0x1_0000_0000 + MinInt
  }

  /** Two's-complement wrap-around of a `long` expression. */
  function WrapLong(x: int): (r: Long)
    ensures MinLong <= x <= MaxLong ==> r == x
    ensures MaxLong < x <= 2 * MaxLong + 1 ==> r == x - 0x1_0000_0000_0000_0000
  {
    (x - MinLong) % 0x1_0000_0000_0000_0000 + MinLong
  }

  predicate IsDigit(c: char) { '0' <= c <= '9' }

  predicate AllDigits(s: string) { forall i :: 0 <= i < |s| ==> IsDigit(s[i]) }

  function DigitChar(d: nat): (c: char)
    requires d < 10
    ensures IsDigit(c)
    ensures c == '0' <==> d == 0
  {
    ('0' as int + d) as char
  }

  function DigitValue(c: char): (d: nat)
    requires IsDigit(c)
    ensures d < 10 && DigitChar(d) == c
  {
    c as int - '0' as int
  }

  /** The value of a string of decimal digits, most significant first. */
  function DigitsValue(s: string): nat
    requires AllDigits(s)
  {
    if s == [] then 0 else DigitsValue(s[..|s| - 1]) * 10 + DigitValue(s[|s| - 1])
  }

  /**
   * `Integer.parseInt(s)`: an optional '-' or '+' sign followed by at least one
   * digit, with a value inside the `int` range; anything else is a
   * NumberFormatException, here None. Leading zeros are accepted.
   */
  function ParseInt(s: string): (r: Option<Int32>)
    ensures s == [] ==> r.None?
  {
    if s == [] then None
    else if s[0] == '-' then ParseSigned(true, s[1..])
    else if s[0] == '+' then ParseSigned(false, s[1..])
    else ParseSigned(false, s)
  }

  /** The digits after the optional sign: at least one, and a value in the `int` range. */
  function ParseSigned(negative: bool, body: string): (r: Option<Int32>)
    ensures r.Some? ==> |body| > 0 && AllDigits(body)
    ensures r.Some? ==> r.value == (if negative then -(DigitsValue(body) as int) else DigitsValue(body))
  {
    if body == [] || !AllDigits(body) then None
    else
      var v: int := if negative then -(DigitsValue(body) as int) else DigitsValue(body);
      if MinInt <= v <= MaxInt then Some(v) else None
  }

  /** What `Integer.parseInt` accepts: digits, or a sign followed by at least one digit. */
  lemma ParseIntAccepts(s: string)
    requires ParseInt(s).Some?
    ensures (|s| > 0 && AllDigits(s)) || ((s[0] == '-' || s[0] == '+') && |s| > 1 && AllDigits(s[1..]))
  {
  }

  /** Decimal digits of a natural number, without leading zeros. */
  function NatToString(n: nat): (s: string)
    ensures |s| > 0 && AllDigits(s)
    ensures s[0] == '0' <==> n == 0
    ensures s[0] == '0' ==> |s| == 1
  {
    if n < 10 then [DigitChar(n)] else NatToString(n / 10) + [DigitChar(n % 10)]
  }

  /**
   * The only form `Integer.toString` prints: decimal digits with no leading
   * zero unless the number is 0, preceded by '-' only for a negative number.
   */
  predicate Canonical(s: string) {
    || (|s| > 0 && AllDigits(s) && (s[0] == '0' ==> |s| == 1))
    || (|s| > 1 && s[0] == '-' && AllDigits(s[1..]) && s[1] != '0')
  }

  /** `Integer.toString(n)`, which is what `n + ""` produces. */
  function IntToString(n: int): (s: string)
    ensures Canonical(s)
    ensures n >= 0 <==> IsDigit(s[0])
  {
    if n < 0 then
      var digits := NatToString(-n);
      assert ("-" + digits)[1..] == digits;
      "-" + digits
    else NatToString(n)
  }

  lemma {:induction false} NatToStringValue(n: nat)
    ensures DigitsValue(NatToString(n)) == n
  {
    var s := NatToString(n);
    if n >= 10 {
      NatToStringValue(n / 10);
      assert s[..|s| - 1] == NatToString(n / 10);
    }
  }

  lemma ParseUnsigned(s: string)
    requires |s| > 0 && AllDigits(s) && DigitsValue(s) <= MaxInt
    ensures ParseInt(s) == Some(DigitsValue(s))
  {
    assert s[0] != '-' && s[0] != '+' by { assert IsDigit(s[0]); }
  }

  /** After a leading '-', `Integer.parseInt` reads the rest as the digits of a negative number. */
  lemma StripMinus(body: string)
    ensures ParseInt("-" + body) == ParseSigned(true, body)
  {
    var s := "-" + body;
    assert s[0] == '-' && s[1..] == body;
  }

  lemma ParseNegative(digits: string)
    requires |digits| > 0 && AllDigits(digits) && DigitsValue(digits) <= -MinInt
    ensures ParseInt("-" + digits) == Some(-(DigitsValue(digits) as int))
  {
    StripMinus(digits);
  }

  /**
   * Digits whose value lies outside the `int` range are rejected, with or
   * without a sign; a '+' sign reads the digits as they are.
   */
  lemma ParseRejectsOutOfRange(digits: string)
    requires |digits| > 0 && AllDigits(digits)
    ensures DigitsValue(digits) > MaxInt ==> ParseInt(digits).None? && ParseInt("+" + digits).None?
    ensures DigitsValue(digits) > -MinInt ==> ParseInt("-" + digits).None?
    ensures DigitsValue(digits) <= MaxInt ==> ParseInt("+" + digits) == Some(DigitsValue(digits))
  {
    assert IsDigit(digits[0]);
    var p := "+" + digits;
    assert p[0] == '+' && p[1..] == digits;
    StripMinus(digits);
  }

  lemma IntToStringShape(n: int)
    ensures n < 0 ==> IntToString(n) == "-" + NatToString(-n)
    ensures n >= 0 ==> IntToString(n) == NatToString(n)
  {
  }

  /** Printing an `int` and parsing it back gives the same `int`. */
  lemma ParseIntToString(n: Int32)
    ensures ParseInt(IntToString(n)) == Some(n)
  {
    IntToStringShape(n);
    if n < 0 {
      var m: nat := -(n as int);
      NatToStringValue(m);
      ParseNegative(NatToString(m));
    } else {
      NatToStringValue(n);
      ParseUnsigned(NatToString(n));
    }
  }

  /** Digits that do not start with '0' have a positive value. */
  lemma {:induction false} DigitsValuePositive(s: string)
    requires |s| > 0 && AllDigits(s) && s[0] != '0'
    ensures DigitsValue(s) >= 1
  {
    if |s| == 1 {
      assert DigitChar(DigitValue(s[0])) == s[0];
    } else {
      DigitsValuePositive(s[..|s| - 1]);
    }
  }

  /** Digits without a leading zero are exactly the printing of their value. */
  lemma {:induction false} PrintedDigits(s: string)
    requires |s| > 0 && AllDigits(s) && (s[0] == '0' ==> |s| == 1)
    ensures NatToString(DigitsValue(s)) == s
  {
    var c := s[|s| - 1];
    if |s| == 1 {
      assert DigitsValue(s) == DigitValue(c);
    } else {
      var init := s[..|s| - 1];
      DigitsValuePositive(init);
      PrintedDigits(init);
      var n := DigitsValue(s);
      assert n / 10 == DigitsValue(init) && n % 10 == DigitValue(c);
      assert s == init + [c];
    }
  }

  lemma CanonicalNegative(body: string, n: Int32)
    requires |body| > 0 && AllDigits(body) && body[0] != '0'
    requires ParseSigned(true, body) == Some(n)
    ensures "-" + body == IntToString(n)
  {
    DigitsValuePositive(body);
    PrintedDigits(body);
    IntToStringShape(n);
  }

  lemma CanonicalUnsigned(s: string, n: Int32)
    requires |s| > 0 && AllDigits(s) && (s[0] == '0' ==> |s| == 1)
    requires ParseInt(s) == Some(n)
    ensures s == IntToString(n)
  {
    assert IsDigit(s[0]);
    assert ParseInt(s) == ParseSigned(false, s);
    PrintedDigits(s);
    IntToStringShape(n);
  }

  /** A canonical string that parses is the printing of the value it parses to. */
  lemma CanonicalIsPrinted(s: string, n: Int32)
    requires Canonical(s) && ParseInt(s) == Some(n)
    ensures s == IntToString(n)
  {
    if s[0] == '-' {
      var body := s[1..];
      assert s == "-" + body;
      StripMinus(body);
      CanonicalNegative(body, n);
    } else {
      assert IsDigit(s[0]);
      CanonicalUnsigned(s, n);
    }
  }

  /** Two canonical strings that parse to the same `int` are the same string. */
  lemma CanonicalUnique(s: string, t: string)
    requires Canonical(s) && Canonical(t)
    requires ParseInt(s).Some? && ParseInt(s) == ParseInt(t)
    ensures s == t
  {
    CanonicalIsPrinted(s, ParseInt(s).value);
    CanonicalIsPrinted(t, ParseInt(t).value);
  }

  /** Printing `10 * n + d` appends the digit `d` to the printing of `n`. */
  lemma AppendDigit(n: nat, printed: string, d: nat)
    requires 1 <= n && d < 10 && NatToString(n) == printed
    ensures NatToString(10 * n + d) == printed + [DigitChar(d)]
  {
    var m := 10 * n + d;
    assert m / 10 == n && m % 10 == d;
  }

  /** A number with exactly `k` digits prints as `k` characters. */
  lemma {:induction false} NatToStringLength(n: nat, k: nat)
    requires k >= 1
    requires (k == 1 || Pow10(k - 1) <= n) && n < Pow10(k)
    ensures |NatToString(n)| == k
  {
    if k > 1 {
      assert n >= 10 by { Pow10AtLeast(k - 1); }
      NatToStringLength(n / 10, k - 1);
    }
  }

  function Pow10(k: nat): (p: nat)
    ensures p >= 1
  {
    if k == 0 then 1 else 10 * Pow10(k - 1)
  }

  lemma {:induction false} Pow10AtLeast(k: nat)
    requires k >= 1
    ensures Pow10(k) >= 10
  {
    if k > 1 { Pow10AtLeast(k - 1); }
  }
}
