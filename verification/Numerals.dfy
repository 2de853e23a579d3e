/** How Python writes non-negative integers and UUIDs as text. */
module Numerals {

  predicate IsDigit(c: char) { '0' <= c <= '9' }

  function Digit(d: nat): (c: char)
    requires d < 10
    ensures IsDigit(c)
  {
    '0' + d as char
  }

  function DigitValue(c: char): nat {
    if IsDigit(c) then c as int - '0' as int else 0
  }

  /** `str(n)`. */
  function Decimal(n: nat): string {
    if n < 10 then [Digit(n)] else Decimal(n / 10) + [Digit(n % 10)]
  }

  /** What a string of digits stands for. */
  function Value(s: string): nat {
    if s == "" then 0 else 10 * Value(s[..|s| - 1]) + DigitValue(s[|s| - 1])
  }

  lemma {:induction false} ValueOfDecimal(n: nat)
    ensures Value(Decimal(n)) == n
  {
    if n < 10 {
      assert Decimal(n)[..0] == "";
    } else {
      ValueOfDecimal(n / 10);
      assert Decimal(n)[..|Decimal(n)| - 1] == Decimal(n / 10);
    }
  }

  /** Digits only, and no leading zero unless the number is zero. */
  lemma {:induction false} DecimalShape(n: nat)
    ensures Decimal(n) != "" && (forall i :: 0 <= i < |Decimal(n)| ==> IsDigit(Decimal(n)[i]))
    ensures Decimal(n)[0] == '0' ==> n == 0
  {
    if n >= 10 {
      DecimalShape(n / 10);
    }
  }

  lemma DecimalInjective(m: nat, n: nat)
    requires Decimal(m) == Decimal(n)
    ensures m == n
  {
    ValueOfDecimal(m);
    ValueOfDecimal(n);
  }

  // ------------------------------------------------------------------- UUIDs

  function HexDigit(d: nat): char
    requires d < 16
  {
    "0123456789abcdef"[d]
  }

  predicate IsHexDigit(c: char) { IsDigit(c) || 'a' <= c <= 'f' }

  /** The last `n` hexadecimal digits. */
  function Hex(x: nat, n: nat): (s: string)
    ensures |s| == n
    ensures forall i :: 0 <= i < n ==> IsHexDigit(s[i])
  {
    if n == 0 then "" else Hex(x / 16, n - 1) + [HexDigit(x % 16)]
  }

  /** The number has at most `n` hexadecimal digits. */
  predicate Fits(x: int, n: nat) {
    if n == 0 then x == 0 else x >= 0 && Fits(x / 16, n - 1)
  }

  lemma {:induction false} HexInjective(x: nat, y: nat, n: nat)
    requires Fits(x, n) && Fits(y, n) && Hex(x, n) == Hex(y, n)
    ensures x == y
  {
    if n > 0 {
      var a, b := Hex(x, n), Hex(y, n);
      assert a[..n - 1] == Hex(x / 16, n - 1) && b[..n - 1] == Hex(y / 16, n - 1);
      assert a[n - 1] == HexDigit(x % 16) && b[n - 1] == HexDigit(y % 16);
      HexInjective(x / 16, y / 16, n - 1);
    }
  }

  /** A UUID is a number of 128 bits. */
  predicate IsUuid(x: int) { Fits(x, 32) }

  /** `str(uuid)`: groups of 8, 4, 4, 4 and 12 digits. */
  function UuidText(x: int): string
    requires IsUuid(x)
  {
    var h := Hex(x, 32);
    h[..8] + "-" + h[8..12] + "-" + h[12..16] + "-" + h[16..20] + "-" + h[20..]
  }

  /** `uuid.version == 4`, which also asks for the RFC 4122 variant. */
  predicate IsVersion4(x: int)
    requires IsUuid(x)
  {
    Hex(x, 32)[12] == '4' && Hex(x, 32)[16] in "89ab"
  }

  /** A hexadecimal digit of a number, counted from the last. */
  function Nibble(x: nat, k: nat): (d: nat)
    ensures d < 16
  {
    if k == 0 then x % 16 else Nibble(x / 16, k - 1)
  }

  lemma {:induction false} HexAt(x: nat, n: nat, i: nat)
    requires i < n
    ensures Hex(x, n)[i] == HexDigit(Nibble(x, n - 1 - i))
  {
    if i < n - 1 {
      HexAt(x / 16, n - 1, i);
    }
  }

  lemma FitsIsNat(x: int, n: nat)
    requires Fits(x, n)
    ensures x >= 0
  {
  }

  /** A version 4 UUID has 4 for its thirteenth digit, and a seventeenth whose first two bits are 10. */
  lemma Version4Means(x: int)
    requires IsUuid(x)
    ensures x >= 0 && (IsVersion4(x) <==> Nibble(x, 19) == 4 && 8 <= Nibble(x, 15) < 12)
  {
    FitsIsNat(x, 32);
    HexAt(x, 32, 12);
    HexAt(x, 32, 16);
    var d, e := Nibble(x, 19), Nibble(x, 15);
    assert HexDigit(d) == '4' <==> d == 4;
    assert HexDigit(e) in "89ab" <==> 8 <= e < 12 by {
      assert "89ab"[0] == '8' && "89ab"[1] == '9' && "89ab"[2] == 'a' && "89ab"[3] == 'b';
    }
    hide Hex, Nibble, Fits;
  }

  /** Where each digit stands between the dashes. */
  lemma UuidDigits(x: int)
    requires IsUuid(x)
    ensures var h, s := Hex(x, 32), UuidText(x);
            && |s| == 36 && s[8] == s[13] == s[18] == s[23] == '-'
            && (forall i :: 0 <= i < 8 ==> h[i] == s[i]) && (forall i :: 8 <= i < 12 ==> h[i] == s[i + 1])
            && (forall i :: 12 <= i < 16 ==> h[i] == s[i + 2]) && (forall i :: 16 <= i < 20 ==> h[i] == s[i + 3])
            && (forall i :: 20 <= i < 32 ==> h[i] == s[i + 4])
  {
    hide Hex, IsUuid;
  }

  lemma UuidTextInjective(x: int, y: int)
    requires IsUuid(x) && IsUuid(y) && UuidText(x) == UuidText(y)
    ensures x == y
  {
    UuidDigits(x);
    UuidDigits(y);
    hide UuidText;
    assert Hex(x, 32) == Hex(y, 32);
    HexInjective(x, y, 32);
  }
}
