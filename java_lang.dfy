/** The pieces of the Java platform that the command builder relies on:
    nullable references, the 32-bit `int`, and `Integer.toString`. */
module JavaLang {

  /** A Java reference that may be `null`. */
  datatype Option<+T> = None | Some(value: T)

  /** Java's `int`. */
  newtype int32 = x: int | -0x8000_0000 <= x < 0x8000_0000

  predicate IsDigit(c: char) {
    '0' <= c <= '9'
  }

  predicate AllDigits(s: string) {
    forall i :: 0 <= i < |s| ==> IsDigit(s[i])
  }

  function DigitChar(d: nat): (c: char)
    requires d < 10
    ensures IsDigit(c) && (c == '0' <==> d == 0)
  {
    ('0' as int + d) as char
  }

  function DigitValue(c: char): (d: nat)
    requires IsDigit(c)
    ensures d < 10 && DigitChar(d) == c
  {
    (c as int - '0' as int) as nat
  }

  /** Decimal digits of `n`, most significant first, with no leading zero. */
  function NatToString(n: nat): (s: string)
    ensures 0 < |s| && AllDigits(s)
    ensures s[0] == '0' <==> n == 0
    decreases n
  {
    if n < 10 then [DigitChar(n)] else NatToString(n / 10) + [DigitChar(n % 10)]
  }

  /** The value a string of decimal digits denotes. */
  function ParseNat(s: string): (n: nat)
    requires AllDigits(s)
    decreases |s|
  {
    if s == [] then 0 else ParseNat(s[..|s| - 1]) * 10 + DigitValue(s[|s| - 1])
  }

  /** The shape of a decimal integer literal: an optional minus sign, then at
      least one digit. */
  predicate IsIntegerLiteral(s: string) {
    0 < |s| &&
    if s[0] == '-' then 1 < |s| && AllDigits(s[1..]) else AllDigits(s)
  }

  /** `Integer.toString(n)`: a leading `-` for negative values, then the
      decimal digits of the magnitude, with no leading zero (zero is "0"). */
  function IntegerToString(n: int32): (s: string)
    ensures IsIntegerLiteral(s)
    ensures s[0] == '-' <==> n < 0
    ensures var digits := if n < 0 then s[1..] else s;
            digits[0] == '0' ==> digits == "0"
  {
    if n < 0 then
      var digits := NatToString(-(n as int));
      assert ("-" + digits)[1..] == digits;
      "-" + digits
    else NatToString(n as nat)
  }

  /** The value a literal denotes, without `int` bounds; the inverse of
      IntegerToString on its outputs. */
  function ParseInteger(s: string): int
    requires IsIntegerLiteral(s)
  {
    if s[0] == '-' then -(ParseNat(s[1..]) as int) else ParseNat(s)
  }

  lemma {:induction false} ParseNatToString(n: nat)
    ensures ParseNat(NatToString(n)) == n
    decreases n
  {
    var s := NatToString(n);
    if n < 10 {
      assert s[..|s| - 1] == [];
    } else {
      ParseNatToString(n / 10);
      assert s[..|s| - 1] == NatToString(n / 10);
    }
  }

  /** Parsing the text `Integer.toString` produces gives back the number. */
  lemma ParseIntegerToString(n: int32)
    ensures ParseInteger(IntegerToString(n)) == n as int
  {
    var s := IntegerToString(n);
    if n < 0 {
      assert s[1..] == NatToString(-(n as int));
      ParseNatToString(-(n as int));
    } else {
      ParseNatToString(n as nat);
    }
  }

  /** Distinct numbers print differently. */
  lemma IntegerToStringInjective(a: int32, b: int32)
    ensures IntegerToString(a) == IntegerToString(b) <==> a == b
  {
    if IntegerToString(a) == IntegerToString(b) {
      ParseIntegerToString(a);
      ParseIntegerToString(b);
    }
  }
}
