/** How numbers and bytes are printed on the entity debug pages. */
module Printing {
  import opened Wrappers
  import opened ByteStrings

  // Decimal numbers

  function Digit(n: nat): char
    requires n < 10
  {
    "0123456789"[n]
  }

  function Decimal(n: nat): string {
    if n < 10 then [Digit(n)] else Decimal(n / 10) + [Digit(n % 10)]
  }

  // Hexadecimal numbers and byte strings

  const HEX_DIGITS: string := "0123456789abcdef"

  function HexDigit(n: nat): char
    requires n < 16
  {
    HEX_DIGITS[n]
  }

  function HexNumber(n: nat): string {
    if n < 16 then [HexDigit(n)] else HexNumber(n / 16) + [HexDigit(n % 16)]
  }

  lemma {:induction false} HexNumberIsHex(n: nat)
    ensures HexNumber(n) != [] && forall c :: c in HexNumber(n) ==> c in HEX_DIGITS
  {
    if n >= 16 {
      HexNumberIsHex(n / 16);
    }
  }

  function Hex(b: Bytes): string {
    if b == [] then "" else [HexDigit(b[0] / 16), HexDigit(b[0] % 16)] + Hex(b[1..])
  }

  // Reading back, from the character codes

  function HexValue(c: char): (r: Option<nat>)
    ensures r.Some? ==> r.value < 16
  {
    if '0' <= c <= '9' then Some(c as int - '0' as int)
    else if 'a' <= c <= 'f' then Some(c as int - 'a' as int + 10)
    else if 'A' <= c <= 'F' then Some(c as int - 'A' as int + 10)
    else None
  }

  lemma HexDigitIsReadBack(n: nat)
    requires n < 16
    ensures HexValue(HexDigit(n)) == Some(n)
    ensures '0' <= HexDigit(n) <= '9' || 'a' <= HexDigit(n) <= 'f'
    ensures HexDigit(n) == '0' <==> n == 0
  {
  }

  /** Digits to a base, from the first to the last. */
  function ReadNumber(s: string, base: nat): Option<nat> {
    if s == [] then Some(0)
    else
      var init :- ReadNumber(s[..|s| - 1], base);
      var digit :- HexValue(s[|s| - 1]);
      if digit < base then Some(init * base + digit) else None
  }

  lemma ReadOneMore(s: string, c: char, base: nat)
    requires ReadNumber(s, base).Some? && HexValue(c).Some? && HexValue(c).value < base
    ensures ReadNumber(s + [c], base) == Some(ReadNumber(s, base).value * base + HexValue(c).value)
  {
    hide HexValue;
    assert (s + [c])[..|s|] == s;
  }

  lemma ReadNothing(base: nat)
    ensures ReadNumber([], base) == Some(0)
  {
  }

  lemma {:induction false} HexNumberIsReadBack(n: nat)
    ensures ReadNumber(HexNumber(n), 16) == Some(n)
    ensures HexNumber(n) != [] && (HexNumber(n)[0] == '0' ==> n == 0)
  {
    hide ReadNumber, HexValue, HexDigit;
    HexDigitIsReadBack(n % 16);
    if n < 16 {
      ReadNothing(16);
      ReadOneMore([], HexDigit(n), 16);
      assert [] + [HexDigit(n)] == HexNumber(n);
    } else {
      HexNumberIsReadBack(n / 16);
      ReadOneMore(HexNumber(n / 16), HexDigit(n % 16), 16);
    }
  }

  lemma {:induction false} DecimalIsReadBack(n: nat)
    ensures ReadNumber(Decimal(n), 10) == Some(n)
    ensures Decimal(n) != [] && (Decimal(n)[0] == '0' ==> n == 0)
  {
    assert HexValue(Digit(n % 10)) == Some(n % 10) && (Digit(n % 10) == '0' <==> n % 10 == 0);
    hide ReadNumber, HexValue, Digit;
    if n < 10 {
      ReadNothing(10);
      ReadOneMore([], Digit(n), 10);
      assert [] + [Digit(n)] == Decimal(n);
    } else {
      DecimalIsReadBack(n / 10);
      ReadOneMore(Decimal(n / 10), Digit(n % 10), 10);
    }
  }

  /** Two digits to a byte, from the first to the last. */
  function ReadBytes(s: string): Option<Bytes> {
    if s == [] then Some([])
    else if |s| == 1 then None
    else
      var high :- HexValue(s[0]);
      var low :- HexValue(s[1]);
      var rest :- ReadBytes(s[2..]);
      Some([high * 16 + low] + rest)
  }

  lemma ReadOneByte(b: Byte, s: string)
    requires ReadBytes(s).Some?
    ensures ReadBytes([HexDigit(b / 16), HexDigit(b % 16)] + s) == Some([b] + ReadBytes(s).value)
  {
    HexDigitIsReadBack(b / 16);
    HexDigitIsReadBack(b % 16);
    hide HexDigit, HexValue;
    assert ([HexDigit(b / 16), HexDigit(b % 16)] + s)[2..] == s;
  }

  lemma {:induction false} HexIsReadBack(b: Bytes)
    ensures ReadBytes(Hex(b)) == Some(b)
  {
    if b != [] {
      HexIsReadBack(b[1..]);
      hide ReadBytes, HexDigit;
      ReadOneByte(b[0], Hex(b[1..]));
      assert b == [b[0]] + b[1..];
    }
  }

  // Hence different things are printed differently

  lemma DecimalIsInjective(m: nat, n: nat)
    requires Decimal(m) == Decimal(n)
    ensures m == n
  {
    DecimalIsReadBack(m);
    DecimalIsReadBack(n);
  }

  lemma HexNumberIsInjective(m: nat, n: nat)
    requires HexNumber(m) == HexNumber(n)
    ensures m == n
  {
    HexNumberIsReadBack(m);
    HexNumberIsReadBack(n);
  }

  lemma HexIsInjective(a: Bytes, b: Bytes)
    requires Hex(a) == Hex(b)
    ensures a == b
  {
    HexIsReadBack(a);
    HexIsReadBack(b);
  }
}
