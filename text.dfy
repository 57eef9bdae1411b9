/**
 * Decimal rendering of integers, as Python's f-string `{n}` writes them
 * (an optional '-' followed by the digits, no leading zeros), together with
 * the reading that undoes it.
 */
module Text {

  import opened Wrappers

  predicate IsDigit(c: char) {
    '0' <= c <= '9'
  }

  predicate AllDigits(s: string) {
    forall i :: 0 <= i < |s| ==> IsDigit(s[i])
  }

  function DigitChar(d: nat): (c: char)
    requires d < 10
    ensures IsDigit(c)
  {
    "0123456789"[d]
  }

  function DigitValue(c: char): (d: nat)
    requires IsDigit(c)
    ensures d < 10
  {
    (c as int - '0' as int) as nat
  }

  /** The decimal digits of `n`, most significant first. */
  function NatToString(n: nat): (s: string)
    ensures |s| >= 1 && AllDigits(s)
    decreases n
  {
    if n < 10 then [DigitChar(n)] else NatToString(n / 10) + [DigitChar(n % 10)]
  }

  /** Python's `str(i)` for an `int`. */
  function IntToString(i: int): (s: string)
    ensures |s| >= 1
    ensures i < 0 <==> s[0] == '-'
  {
    if i < 0 then "-" + NatToString(-i) else NatToString(i)
  }

  /** The value of a string of decimal digits. */
  function ParseDigits(s: string): nat
    requires AllDigits(s)
    decreases |s|
  {
    if s == [] then 0 else ParseDigits(s[..|s| - 1]) * 10 + DigitValue(s[|s| - 1])
  }

  /** The longest prefix of `s` made of digits. */
  function TakeDigits(s: string): (d: string)
    ensures AllDigits(d) && |d| <= |s|
    decreases |s|
  {
    if s != [] && IsDigit(s[0]) then [s[0]] + TakeDigits(s[1..]) else []
  }

  /**
   * Reads an integer at the front of `s` the way `IntToString` writes it:
   * an optional '-' and then every digit that follows. Returns the value and
   * the rest of the string, or None when no digit is there.
   */
  function ReadInt(s: string): (r: Option<(int, string)>)
  {
    var neg := s != [] && s[0] == '-';
    var body := if neg then s[1..] else s;
    var digits := TakeDigits(body);
    var n: int := ParseDigits(digits);
    if digits == [] then None else Some((if neg then -n else n, body[|digits|..]))
  }

  lemma {:induction false} DigitValueOfDigitChar(d: nat)
    requires d < 10
    ensures DigitValue(DigitChar(d)) == d
  {
    var digits := "0123456789";
    assert digits[d] as int - '0' as int == d by {
      assert digits[0] == '0' && digits[1] == '1' && digits[2] == '2' && digits[3] == '3';
      assert digits[4] == '4' && digits[5] == '5' && digits[6] == '6' && digits[7] == '7';
      assert digits[8] == '8' && digits[9] == '9';
    }
  }

  /** Reading back what `NatToString` wrote gives the number again. */
  lemma {:induction false} ParseNatToString(n: nat)
    ensures ParseDigits(NatToString(n)) == n
    decreases n
  {
    var s := NatToString(n);
    if n < 10 {
      DigitValueOfDigitChar(n);
      assert s[..0] == [];
    } else {
      var p := NatToString(n / 10);
      assert s == p + [DigitChar(n % 10)];
      assert s[..|s| - 1] == p;
      ParseNatToString(n / 10);
      DigitValueOfDigitChar(n % 10);
    }
  }

  /** A run of digits followed by a non-digit (or nothing) is read exactly. */
  lemma {:induction false} TakeDigitsOfDigitsThen(d: string, rest: string)
    requires AllDigits(d)
    requires rest == [] || !IsDigit(rest[0])
    ensures TakeDigits(d + rest) == d
    decreases |d|
  {
    if d == [] {
      assert d + rest == rest;
    } else {
      assert (d + rest)[1..] == d[1..] + rest;
      TakeDigitsOfDigitsThen(d[1..], rest);
      assert [d[0]] + d[1..] == d;
    }
  }

  /** A sign-free run of digits and what follows it. */
  lemma ReadDigitsThen(digits: string, rest: string)
    requires digits != [] && AllDigits(digits)
    requires rest == [] || !IsDigit(rest[0])
    ensures ReadInt(digits + rest) == Some((ParseDigits(digits) as int, rest))
  {
    TakeDigitsOfDigitsThen(digits, rest);
    assert (digits + rest)[0] == digits[0];
    assert (digits + rest)[|digits|..] == rest;
  }

  /** A '-' in front of a number that starts with a digit negates what is read. */
  lemma ReadNegated(t: string, v: int, tail: string)
    requires t != [] && IsDigit(t[0]) && ReadInt(t) == Some((v, tail))
    ensures ReadInt("-" + t) == Some((-v, tail))
  {
    assert ("-" + t)[0] == '-';
    assert ("-" + t)[1..] == t;
  }

  /** The digits of `n` followed by a non-digit (or nothing) read back as `n`. */
  lemma ReadNatThen(n: nat, rest: string)
    requires rest == [] || !IsDigit(rest[0])
    ensures ReadInt(NatToString(n) + rest) == Some((n as int, rest))
  {
    ParseNatToString(n);
    ReadDigitsThen(NatToString(n), rest);
  }

  /** '-' and the digits of `n` followed by a non-digit (or nothing) read back as `-n`. */
  lemma ReadMinusNatThen(n: nat, rest: string)
    requires rest == [] || !IsDigit(rest[0])
    ensures ReadInt("-" + (NatToString(n) + rest)) == Some((-(n as int), rest))
  {
    var t := NatToString(n) + rest;
    ReadNatThen(n, rest);
    assert t[0] == NatToString(n)[0];
    ReadNegated(t, n, rest);
  }

  /** A negative number is written as '-' and then the digits of its magnitude. */
  lemma NegativeText(i: int, rest: string)
    requires i < 0
    ensures IntToString(i) + rest == "-" + (NatToString(-i) + rest)
  {
    var m := NatToString(-i);
    assert IntToString(i) == "-" + m;
    assert ("-" + m) + rest == "-" + (m + rest);
  }

  /** The negative half of `ReadIntToString`. */
  lemma ReadNegativeToString(i: int, rest: string)
    requires i < 0 && (rest == [] || !IsDigit(rest[0]))
    ensures ReadInt(IntToString(i) + rest) == Some((i, rest))
  {
    var n: nat := -i;
    var t := "-" + (NatToString(n) + rest);
    NegativeText(i, rest);
    assert IntToString(i) + rest == t;
    ReadMinusNatThen(n, rest);
    assert ReadInt(t) == Some((i, rest));
  }

  /** `ReadInt` undoes `IntToString` when the text after the number does not start with a digit. */
  lemma ReadIntToString(i: int, rest: string)
    requires rest == [] || !IsDigit(rest[0])
    ensures ReadInt(IntToString(i) + rest) == Some((i, rest))
  {
    if i < 0 {
      ReadNegativeToString(i, rest);
    } else {
      ReadNatThen(i, rest);
    }
  }

  /** Different integers are written differently. */
  lemma IntToStringInjective(i: int, j: int)
    requires IntToString(i) == IntToString(j)
    ensures i == j
  {
    ReadIntToString(i, []);
    ReadIntToString(j, []);
    assert IntToString(i) + [] == IntToString(i);
    assert IntToString(j) + [] == IntToString(j);
  }
}
