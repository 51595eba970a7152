/** The decimal and hexadecimal digit conversions the engine relies on:
    `Number.prototype.toString()` for output and `parseInt(c, 16)` for input. */
module Text {

  predicate IsDigitChar(c: char)
  {
    '0' <= c <= '9'
  }

  function DigitValue(c: char): nat
    requires IsDigitChar(c)
  {
    c as int - '0' as int
  }

  function DigitChar(d: nat): (c: char)
    requires d < 10
    ensures IsDigitChar(c) && DigitValue(c) == d
  {
    ('0' as int + d) as char
  }

  /** Decimal rendering of a natural number, without leading zeros. */
  function NatToString(n: nat): (s: string)
    ensures forall i :: 0 <= i < |s| ==> IsDigitChar(s[i])
    decreases n
  {
    if n < 10 then [DigitChar(n)] else NatToString(n / 10) + [DigitChar(n % 10)]
  }

  /** A rendered number has at least one digit, has one digit exactly when
      it is below 10, and has no leading zero. */
  lemma {:induction false} NatToStringShape(n: nat)
    ensures var s := NatToString(n);
      1 <= |s| && (|s| == 1 <==> n < 10) && (|s| > 1 ==> s[0] != '0')
    decreases n
  {
    if n >= 10 {
      NatToStringShape(n / 10);
    }
  }

  /** Decimal rendering of an integer: a minus sign before negative values. */
  function IntToString(i: int): string
  {
    if i < 0 then "-" + NatToString(-i) else NatToString(i)
  }

  /** A rendered integer starts with a minus sign exactly when it is
      negative, and 0 to 9 render as their single digit. */
  lemma IntToStringFacts(i: int)
    ensures var s := IntToString(i);
      1 <= |s| && ((i < 0) <==> (s[0] == '-'))
    ensures 0 <= i < 10 ==> IntToString(i) == [DigitChar(i)]
  {
    if i < 0 {
      NatToStringShape(-i);
    } else {
      NatToStringShape(i);
    }
  }

  /** The value of a string of decimal digits: the independent reading of
      `NatToString`'s output. */
  function DecimalValue(s: string): nat
    requires forall i :: 0 <= i < |s| ==> IsDigitChar(s[i])
  {
    if s == [] then 0 else DecimalValue(s[..|s| - 1]) * 10 + DigitValue(s[|s| - 1])
  }

  /** Reading back a rendered number gives the number. */
  lemma {:induction false} NatToStringRoundTrip(n: nat)
    ensures DecimalValue(NatToString(n)) == n
    decreases n
  {
    if n >= 10 {
      var s := NatToString(n);
      assert s[..|s| - 1] == NatToString(n / 10);
      NatToStringRoundTrip(n / 10);
    }
  }

  predicate IsHexDigit(c: char)
  {
    '0' <= c <= '9' || 'a' <= c <= 'f' || 'A' <= c <= 'F'
  }

  /** `parseInt(c, 16)` of one hexadecimal digit, either case. */
  function HexValue(c: char): (v: nat)
    requires IsHexDigit(c)
    ensures v < 16
    ensures IsDigitChar(c) ==> v == DigitValue(c)
  {
    if '0' <= c <= '9' then c as int - '0' as int
    else if 'a' <= c <= 'f' then c as int - 'a' as int + 10
    else c as int - 'A' as int + 10
  }
}
