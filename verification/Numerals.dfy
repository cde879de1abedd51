/** Decimal and hexadecimal numerals: what the encoders print and the decoders read. */
module Numerals {
  import opened Octets

  predicate Digit(b: byte) {
    48 <= b <= 57
  }

  predicate Digits(s: bytes) {
    forall i :: 0 <= i < |s| ==> Digit(s[i])
  }

  /** `int(s)` for a digit string. */
  function DecimalValue(s: bytes): nat
    requires Digits(s)
  {
    if s == [] then 0 else DecimalValue(s[..|s| - 1]) * 10 + (s[|s| - 1] as int - 48)
  }

  /** `str(n)`. */
  function Decimal(n: nat): (s: bytes)
    ensures s != [] && Digits(s)
  {
    if n < 10 then [(48 + n) as byte] else Decimal(n / 10) + [(48 + n % 10) as byte]
  }

  lemma {:induction false} DecimalRoundTrip(n: nat)
    ensures DecimalValue(Decimal(n)) == n
  {
    var s := Decimal(n);
    if n < 10 {
      assert s[..|s| - 1] == [];
    } else {
      assert s[..|s| - 1] == Decimal(n / 10);
      DecimalRoundTrip(n / 10);
    }
  }

  predicate HexDigit(b: byte) {
    48 <= b <= 57 || 65 <= b <= 70 || 97 <= b <= 102
  }

  predicate HexDigits(s: bytes) {
    forall i :: 0 <= i < |s| ==> HexDigit(s[i])
  }

  function HexDigitValue(b: byte): nat
    requires HexDigit(b)
  {
    if b <= 57 then b - 48 else if b <= 70 then b - 55 else b - 87
  }

  function HexValue(s: bytes): nat
    requires HexDigits(s)
  {
    if s == [] then 0 else HexValue(s[..|s| - 1]) * 16 + HexDigitValue(s[|s| - 1])
  }

  /** Either case of a hexadecimal digit has the same value. */
  lemma {:induction false} HexAnyCase(s: bytes)
    requires HexDigits(s)
    ensures HexDigits(Lower(s)) && HexValue(Lower(s)) == HexValue(s)
  {
    var t := Lower(s);
    assert forall i :: 0 <= i < |s| ==> t[i] == LowerByte(s[i]) && HexDigit(s[i]);
    if s != [] {
      HexAnyCase(s[..|s| - 1]);
      assert t[..|t| - 1] == Lower(s[..|s| - 1]);
    }
  }

  function HexByte(d: nat): (b: byte)
    requires d < 16
    ensures HexDigit(b) && HexDigitValue(b) == d
  {
    if d < 10 then 48 + d else 87 + d
  }

  /** `format(n, "x")`. */
  function Hex(n: nat): (s: bytes)
    ensures s != [] && HexDigits(s)
  {
    if n < 16 then [HexByte(n)] else Hex(n / 16) + [HexByte(n % 16)]
  }

  lemma {:induction false} HexRoundTrip(n: nat)
    ensures HexValue(Hex(n)) == n
  {
    var s := Hex(n);
    if n < 16 {
      assert s[..|s| - 1] == [];
    } else {
      assert s[..|s| - 1] == Hex(n / 16);
      HexRoundTrip(n / 16);
    }
  }

  function Pow16(k: nat): (p: nat)
    ensures p >= 1
  {
    if k == 0 then 1 else 16 * Pow16(k - 1)
  }

  /** A number below 16^k prints on at most k hexadecimal digits, and the other way round. */
  lemma {:induction false} HexLength(n: nat, k: nat)
    requires k > 0
    ensures |Hex(n)| <= k <==> n < Pow16(k)
  {
    if n < 16 {
      assert Pow16(k) >= 16;
    } else if k == 1 {
      assert Pow16(1) == 16 * Pow16(0);
    } else {
      HexLength(n / 16, k - 1);
      assert n / 16 < Pow16(k - 1) <==> n < 16 * Pow16(k - 1);
    }
  }

  lemma {:induction false} HexBound(s: bytes)
    requires HexDigits(s)
    ensures HexValue(s) < Pow16(|s|)
  {
    if s != [] {
      HexBound(s[..|s| - 1]);
    }
  }
}
