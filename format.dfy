/**
 * Decimal formatting of integers, as Python's `str(int)` (and an f-string
 * placeholder) renders them: an optional minus sign followed by the decimal
 * digits, without leading zeros. Used for the default title "Node {id}".
 */
module Format {

  predicate IsDigit(c: char) {
    '0' <= c <= '9'
  }

  function DigitChar(d: nat): (c: char)
    requires d < 10
    ensures IsDigit(c) && DigitValue(c) == d
  {
    ('0' as int + d) as char
  }

  function DigitValue(c: char): nat {
    if IsDigit(c) then c as int - '0' as int else 0
  }

  /** The decimal digits of `n`, most significant first. */
  function Decimal(n: nat): (s: string)
    ensures |s| >= 1
    ensures forall i :: 0 <= i < |s| ==> IsDigit(s[i])
    ensures s[0] == '0' ==> n == 0
  {
    if n < 10 then [DigitChar(n)] else Decimal(n / 10) + [DigitChar(n % 10)]
  }

  /** The integer a string of decimal digits denotes (the inverse of Decimal). */
  function ParseDecimal(s: string): nat {
    if s == [] then 0 else 10 * ParseDecimal(s[..|s| - 1]) + DigitValue(s[|s| - 1])
  }

  lemma {:induction false} ParseDecimalOfDecimal(n: nat)
    ensures ParseDecimal(Decimal(n)) == n
  {
    if n >= 10 {
      var s := Decimal(n);
      assert s[..|s| - 1] == Decimal(n / 10);
      ParseDecimalOfDecimal(n / 10);
    }
  }

  /** Python's `str(i)` for an `int`. */
  function FormatInt(i: int): string {
    if i < 0 then "-" + Decimal(-i) else Decimal(i)
  }

  /** Python's `int(s)` on the strings FormatInt produces. */
  function ParseInt(s: string): int {
    if s != [] && s[0] == '-' then -(ParseDecimal(s[1..]) as int) else ParseDecimal(s)
  }

  lemma {:induction false} ParseIntOfFormatInt(i: int)
    ensures ParseInt(FormatInt(i)) == i
  {
    if i < 0 {
      assert FormatInt(i)[1..] == Decimal(-i);
      ParseDecimalOfDecimal(-i);
    } else {
      assert IsDigit(Decimal(i)[0]);
      ParseDecimalOfDecimal(i);
    }
  }

  lemma FormatIntInjective(a: int, b: int)
    ensures FormatInt(a) == FormatInt(b) ==> a == b
  {
    ParseIntOfFormatInt(a);
    ParseIntOfFormatInt(b);
  }
}
