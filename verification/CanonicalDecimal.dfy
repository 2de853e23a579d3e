/** The canonical text of a metric value, rendered by the agent and again by the server. */
module CanonicalDecimal {
  import opened Numerals

  /** A finite `Decimal`: sign, coefficient and exponent. */
  datatype Dec = Dec(negative: bool, coefficient: nat, exponent: int)

  const PRECISION := 28

  // -------------------------------------------------------- powers of ten

  /** `c` followed by `k` zeros. */
  function Shift(c: nat, k: nat): nat {
    if k == 0 then c else 10 * Shift(c, k - 1)
  }

  /** `c` without its last `k` digits. */
  function Drop(c: nat, k: nat): nat {
    if k == 0 then c else Drop(c / 10, k - 1)
  }

  /** The significant digits of `c`: its trailing zeros removed. */
  function Core(c: nat): nat {
    if c == 0 || c % 10 != 0 then c else Core(c / 10)
  }

  function Zeros(c: nat): nat {
    if c == 0 || c % 10 != 0 then 0 else 1 + Zeros(c / 10)
  }

  /** Both stand for the same number; the sign of a zero does not count. */
  predicate Same(a: Dec, b: Dec) {
    var e := if a.exponent < b.exponent then a.exponent else b.exponent;
    var x, y := Shift(a.coefficient, a.exponent - e), Shift(b.coefficient, b.exponent - e);
    x == y && (x == 0 || a.negative == b.negative)
  }

  // ------------------------------------------------------------ the functions

  /** Rounding to 28 digits, half to even; how many digits were dropped comes with it. */
  function Rounded(c: nat): (nat, nat) {
    if |Decimal(c)| <= PRECISION then (c, 0)
    else
      var k := |Decimal(c)| - PRECISION;
      var q := Drop(c, k);
      var twice := 2 * (c - Shift(q, k));
      (if twice > Shift(1, k) || (twice == Shift(1, k) && q % 2 == 1) then q + 1 else q, k)
  }

  /** `value.normalize()`. */
  function Normalize(d: Dec): Dec {
    var (c, k) := Rounded(d.coefficient);
    if c == 0 then Dec(d.negative, 0, 0) else Dec(d.negative, Core(c), d.exponent + k + Zeros(c))
  }

  function Repeat(n: nat): (s: string)
    ensures |s| == n
  {
    if n == 0 then "" else Repeat(n - 1) + "0"
  }

  /** At least one digit before the point. */
  function Padded(c: nat, places: nat): (p: string)
    ensures |p| > places
  {
    var digits := Decimal(c);
    if |digits| > places then digits else Repeat(places + 1 - |digits|) + digits
  }

  /** `format(d, "f")`. */
  function Format(d: Dec): string {
    var sign := if d.negative then "-" else "";
    if d.exponent >= 0 then sign + Decimal(d.coefficient) + Repeat(d.exponent)
    else
      var p := Padded(d.coefficient, -d.exponent);
      sign + p[..|p| + d.exponent] + "." + p[|p| + d.exponent..]
  }

  function RStrip(s: string, c: char): string {
    if s == "" || s[|s| - 1] != c then s else RStrip(s[..|s| - 1], c)
  }

  /** `_canonical_decimal`. */
  function Render(d: Dec): string {
    var f := Format(Normalize(d));
    var r := if '.' in f then RStrip(RStrip(f, '0'), '.') else f;
    if r == "-0" || r == "" then "0" else r
  }

  /** Where the point is, or the end of the text. */
  function Point(s: string): (i: nat)
    ensures i <= |s| && (forall j :: 0 <= j < i ==> s[j] != '.') && (i < |s| ==> s[i] == '.')
  {
    if s == "" || s[0] == '.' then 0 else 1 + Point(s[1..])
  }

  /** `Decimal(text)` for plain decimal notation. */
  function Parse(s: string): Dec {
    var negative := s != "" && s[0] == '-';
    var t := if negative then s[1..] else s;
    var i := Point(t);
    if i == |t| then Dec(negative, Value(t), 0) else Dec(negative, Value(t[..i] + t[i + 1..]), i + 1 - |t|)
  }

  // ------------------------------------------------------------ arithmetic

  lemma {:induction false} ShiftMore(c: nat, j: nat, k: nat)
    ensures Shift(Shift(c, j), k) == Shift(c, j + k)
  {
    if k > 0 {
      ShiftMore(c, j, k - 1);
    }
  }

  lemma {:induction false} ShiftGrows(a: nat, b: nat, k: nat)
    ensures a < b <==> Shift(a, k) < Shift(b, k)
    ensures a == b <==> Shift(a, k) == Shift(b, k)
  {
    if k > 0 {
      ShiftGrows(a, b, k - 1);
    }
  }

  lemma {:induction false} ShiftNext(c: nat, k: nat)
    ensures Shift(c + 1, k) == Shift(c, k) + Shift(1, k)
    ensures Shift(0, k) == 0
  {
    if k > 0 {
      ShiftNext(c, k - 1);
    }
  }

  lemma {:induction false} CoreShift(c: nat)
    ensures Shift(Core(c), Zeros(c)) == c
    ensures c != 0 ==> Core(c) % 10 != 0
  {
    if c != 0 && c % 10 == 0 {
      CoreShift(c / 10);
    }
  }

  lemma {:induction false} CoreOfShift(c: nat, k: nat)
    requires c % 10 != 0
    ensures Shift(c, k) > 0 && Core(Shift(c, k)) == c && Zeros(Shift(c, k)) == k
  {
    if k > 0 {
      CoreOfShift(c, k - 1);
      var x := Shift(c, k - 1);
      hide Core, Zeros;
      CoreOfTen(x);
      assert Shift(c, k) == 10 * x;
    } else {
      assert Shift(c, 0) == c;
    }
  }

  lemma CoreOfTen(x: nat)
    requires x > 0
    ensures Core(10 * x) == Core(x) && Zeros(10 * x) == 1 + Zeros(x)
  {
    var y := 10 * x;
    assert y % 10 == 0 && y / 10 == x;
  }

  /** Dropping digits rounds down. */
  lemma {:induction false} DropBounds(c: nat, k: nat)
    ensures Shift(Drop(c, k), k) <= c < Shift(Drop(c, k) + 1, k)
  {
    if k > 0 {
      DropBounds(c / 10, k - 1);
    }
  }

  // ------------------------------------------------------------ normal forms

  /** What `normalize` yields: no trailing zero in the coefficient, and one zero. */
  predicate Normal(d: Dec) {
    if d.coefficient == 0 then d.exponent == 0 else d.coefficient % 10 != 0
  }

  lemma NormalizeIsNormal(d: Dec)
    ensures Normal(Normalize(d)) && Normalize(d).negative == d.negative
  {
    CoreShift(Rounded(d.coefficient).0);
  }

  /** Equal numbers have one normal form, but for the sign of zero. */
  lemma NormalUnique(a: Dec, b: Dec)
    requires Normal(a) && Normal(b) && Same(a, b)
    ensures a == b || a.coefficient == b.coefficient == 0
  {
    var e := if a.exponent < b.exponent then a.exponent else b.exponent;
    var j, k := a.exponent - e, b.exponent - e;
    ShiftNext(0, j);
    ShiftNext(0, k);
    ShiftGrows(0, a.coefficient, j);
    ShiftGrows(0, b.coefficient, k);
    if a.coefficient != 0 && b.coefficient != 0 {
      CoreOfShift(a.coefficient, j);
      CoreOfShift(b.coefficient, k);
    }
  }

  /** Comparing at a lower common exponent makes no difference. */
  lemma SameAt(a: Dec, b: Dec, e: int)
    requires e <= a.exponent && e <= b.exponent
    ensures Same(a, b) <==>
            && Shift(a.coefficient, a.exponent - e) == Shift(b.coefficient, b.exponent - e)
            && (Shift(a.coefficient, a.exponent - e) == 0 || a.negative == b.negative)
  {
    var m := if a.exponent < b.exponent then a.exponent else b.exponent;
    ShiftMore(a.coefficient, a.exponent - m, m - e);
    ShiftMore(b.coefficient, b.exponent - m, m - e);
    ShiftGrows(Shift(a.coefficient, a.exponent - m), Shift(b.coefficient, b.exponent - m), m - e);
    ShiftGrows(0, Shift(a.coefficient, a.exponent - m), m - e);
    ShiftNext(0, m - e);
  }

  lemma SameTransitive(a: Dec, b: Dec, c: Dec)
    requires Same(a, b) && Same(b, c)
    ensures Same(a, c) && Same(b, a)
  {
    var m := if a.exponent < b.exponent then a.exponent else b.exponent;
    var e := if m < c.exponent then m else c.exponent;
    SameAt(a, b, e);
    SameAt(b, c, e);
    SameAt(a, c, e);
    hide Shift;
  }

  lemma SameSymmetric(a: Dec, b: Dec)
    requires Same(a, b)
    ensures Same(b, a) && Same(a, a)
  {
    hide Shift;
  }

  // -------------------------------------------------------------- rounding

  /** At most 28 significant digits. */
  predicate Representable(d: Dec) {
    |Decimal(Core(d.coefficient))| <= PRECISION
  }

  lemma {:induction false} LengthOfShift(c: nat, k: nat)
    requires c > 0
    ensures |Decimal(Shift(c, k))| == |Decimal(c)| + k && Shift(c, k) > 0
  {
    if k > 0 {
      LengthOfShift(c, k - 1);
    }
  }

  lemma {:induction false} LengthOfDrop(c: nat, k: nat)
    requires k < |Decimal(c)|
    ensures |Decimal(Drop(c, k))| == |Decimal(c)| - k
  {
    if k > 0 {
      LengthOfDrop(c / 10, k - 1);
    }
  }

  lemma {:induction false} DropOfShift(c: nat, k: nat)
    ensures Drop(Shift(c, k), k) == c
  {
    if k > 0 {
      DropOfShift(c, k - 1);
    }
  }

  /** Rounding is exact when the significant digits fit in the precision. */
  lemma ShortIsExact(c: nat)
    requires |Decimal(Core(c))| <= PRECISION
    ensures Shift(Rounded(c).0, Rounded(c).1) == c
  {
    if |Decimal(c)| > PRECISION {
      var k := |Decimal(c)| - PRECISION;
      CoreShift(c);
      LengthOfShift(Core(c), Zeros(c));
      var j := Zeros(c) - k;
      ShiftMore(Core(c), j, k);
      DropOfShift(Shift(Core(c), j), k);
      ShiftNext(0, k);
      ShiftGrows(0, 1, k);
    }
  }

  /** Rounding is inexact when they do not fit. */
  lemma LongIsInexact(c: nat)
    requires |Decimal(Core(c))| > PRECISION
    ensures Shift(Rounded(c).0, Rounded(c).1) != c
  {
    CoreShift(c);
    assert c != 0;
    LengthOfShift(Core(c), Zeros(c));
    var k := |Decimal(c)| - PRECISION;
    var q := Drop(c, k);
    LengthOfDrop(c, k);
    DropBounds(c, k);
    if Shift(q, k) == c {
      CoreIsCore(q, k);
      LengthOfCore(q);
    }
  }

  lemma {:induction false} CoreIsCore(c: nat, k: nat)
    ensures Core(Shift(c, k)) == Core(c)
  {
    if k > 0 {
      CoreIsCore(c, k - 1);
      ShiftNext(0, k);
    }
  }

  lemma {:induction false} LengthOfCore(c: nat)
    ensures |Decimal(Core(c))| <= |Decimal(c)|
  {
    if c != 0 && c % 10 == 0 {
      LengthOfCore(c / 10);
    }
  }

  lemma {:induction false} DropPositive(c: nat, k: nat)
    requires k < |Decimal(c)| && c > 0
    ensures Drop(c, k) > 0
  {
    if k > 0 {
      DropPositive(c / 10, k - 1);
    }
  }

  lemma RoundedZero(c: nat)
    ensures Rounded(c).0 == 0 <==> c == 0
  {
    if c > 0 && |Decimal(c)| > PRECISION {
      DropPositive(c, |Decimal(c)| - PRECISION);
    }
  }

  /** Rounding is to the nearest, half to even, and leaves 28 digits, or a power of ten. */
  lemma RoundsHalfEven(c: nat)
    requires |Decimal(c)| > 28
    ensures var (q, k) := Rounded(c);
            var unit: int := Shift(1, k);
            && k == |Decimal(c)| - 28
            && -unit <= 2 * (c - Shift(q, k)) <= unit
            && (2 * (c - Shift(q, k)) == unit || 2 * (c - Shift(q, k)) == -unit ==> q % 2 == 0)
  {
    hide Decimal, Drop, Shift;
    var k := |Decimal(c)| - 28;
    var q := Drop(c, k);
    DropBounds(c, k);
    ShiftNext(q, k);
    Nearest(c, Shift(q, k), Shift(1, k), q);
  }

  /** Of the two multiples around a number, the nearer; of two as near, the even one. */
  lemma Nearest(c: int, s: int, unit: int, q: nat)
    requires s <= c < s + unit
    ensures var up := 2 * (c - s) > unit || (2 * (c - s) == unit && q % 2 == 1);
            var r, e := if up then s + unit else s, if up then q + 1 else q;
            -unit <= 2 * (c - r) <= unit && (2 * (c - r) == unit || 2 * (c - r) == -unit ==> e % 2 == 0)
  {
  }

  /** Normalising keeps the number exactly when its significant digits fit. */
  lemma NormalizeKeeps(d: Dec)
    ensures Same(Normalize(d), d) <==> Representable(d)
  {
    var (c, k) := Rounded(d.coefficient);
    RoundedZero(d.coefficient);
    if d.coefficient == 0 {
      ShiftNext(0, if d.exponent < 0 then -d.exponent else d.exponent);
      ShiftNext(0, 0);
    } else {
      CoreShift(c);
      ShiftMore(Core(c), Zeros(c), k);
      SameAt(Normalize(d), d, d.exponent);
      if Representable(d) {
        ShortIsExact(d.coefficient);
      } else {
        LongIsInexact(d.coefficient);
      }
    }
  }

  // ------------------------------------------------------------ the text

  predicate Digits(s: string) {
    forall i :: 0 <= i < |s| ==> IsDigit(s[i])
  }

  lemma {:induction false} RepeatDigits(n: nat)
    ensures Digits(Repeat(n)) && Value(Repeat(n)) == 0
  {
    if n > 0 {
      RepeatDigits(n - 1);
      assert Repeat(n)[..n - 1] == Repeat(n - 1);
    }
  }

  lemma {:induction false} ValueTrailing(s: string, k: nat)
    ensures Value(s + Repeat(k)) == Shift(Value(s), k)
  {
    if k == 0 {
      assert s + Repeat(0) == s;
    } else {
      ValueTrailing(s, k - 1);
      var t := s + Repeat(k);
      assert t[..|t| - 1] == s + Repeat(k - 1) && t[|t| - 1] == '0';
    }
  }

  lemma {:induction false} ValueLeading(k: nat, s: string)
    ensures Value(Repeat(k) + s) == Value(s)
  {
    var t := Repeat(k) + s;
    if s == "" {
      assert t == Repeat(k);
      RepeatDigits(k);
    } else {
      ValueLeading(k, s[..|s| - 1]);
      assert t[..|t| - 1] == Repeat(k) + s[..|s| - 1] && t[|t| - 1] == s[|s| - 1];
    }
  }

  lemma PaddedShape(c: nat, places: nat)
    ensures Digits(Padded(c, places)) && Value(Padded(c, places)) == c
    ensures Padded(c, places)[|Padded(c, places)| - 1] == Digit(c % 10)
  {
    DecimalShape(c);
    ValueOfDecimal(c);
    LastDigit(c);
    if |Decimal(c)| <= places {
      var k := places + 1 - |Decimal(c)|;
      RepeatDigits(k);
      ValueLeading(k, Decimal(c));
    }
  }

  lemma LastDigit(c: nat)
    ensures |Decimal(c)| > 0 && Decimal(c)[|Decimal(c)| - 1] == Digit(c % 10)
  {
  }

  /** The text of a normal decimal. */
  function Plain(d: Dec): string {
    if d.coefficient == 0 then "0" else Format(d)
  }

  /** Stripping zeros and the point changes nothing but `-0`. */
  lemma RenderIsPlain(d: Dec)
    ensures Render(d) == Plain(Normalize(d))
  {
    NormalizeIsNormal(d);
    var n := Normalize(d);
    if n.coefficient == 0 {
      ZeroText(n);
    } else {
      hide Normalize, Format, RStrip, Normal;
      if n.exponent >= 0 {
        WholeText(n);
      } else {
        FractionText(n);
        NothingToStrip(Format(n));
      }
    }
  }

  lemma ZeroText(n: Dec)
    requires n.coefficient == 0 && n.exponent == 0
    ensures Format(n) == if n.negative then "-0" else "0"
  {
    assert Decimal(0) == "0" && Repeat(0) == "";
  }

  lemma NothingToStrip(s: string)
    requires s != "" && s[|s| - 1] != '0' && s[|s| - 1] != '.'
    ensures RStrip(RStrip(s, '0'), '.') == s
  {
  }

  /** A sign in front of a text that has none. */
  lemma ParseSigned(negative: bool, t: string)
    requires t != "" && t[0] != '-'
    ensures Parse((if negative then "-" else "") + t)
            == if Point(t) == |t| then Dec(negative, Value(t), 0)
               else Dec(negative, Value(t[..Point(t)] + t[Point(t) + 1..]), Point(t) + 1 - |t|)
  {
    hide Value, Point;
    var s := (if negative then "-" else "") + t;
    assert negative ==> s[0] == '-' && s[1..] == t;
    assert !negative ==> s == t;
  }

  lemma ParseWhole(negative: bool, t: string)
    requires Digits(t) && t != ""
    ensures Parse((if negative then "-" else "") + t) == Dec(negative, Value(t), 0)
  {
    assert t[0] != '-' && Point(t) == |t|;
    hide Value, Parse, Point, Digits;
    ParseSigned(negative, t);
  }

  lemma ParseFraction(negative: bool, whole: string, part: string)
    requires Digits(whole) && Digits(part) && whole != ""
    ensures Parse((if negative then "-" else "") + whole + "." + part) == Dec(negative, Value(whole + part), -|part|)
  {
    hide Value, Parse, Point, Digits;
    var t := whole + "." + part;
    PointBetween(whole, part);
    ParseSigned(negative, t);
    assert (if negative then "-" else "") + whole + "." + part == (if negative then "-" else "") + t;
  }

  lemma PointBetween(whole: string, part: string)
    requires Digits(whole) && whole != ""
    ensures var t := whole + "." + part;
            && t != "" && t[0] != '-' && Point(t) == |whole|
            && t[..|whole|] == whole && t[|whole| + 1..] == part && |t| == |whole| + 1 + |part|
  {
    var t := whole + "." + part;
    assert t[0] == whole[0] && t[|whole|] == '.';
    assert forall j :: 0 <= j < |whole| ==> t[j] == whole[j];
  }

  lemma WholeDigits(c: nat, k: nat)
    requires c != 0
    ensures Digits(Decimal(c) + Repeat(k)) && (Decimal(c) + Repeat(k))[0] != '0'
    ensures Value(Decimal(c) + Repeat(k)) == Shift(c, k)
  {
    DecimalShape(c);
    RepeatDigits(k);
    ValueOfDecimal(c);
    ValueTrailing(Decimal(c), k);
    hide Decimal, Value, Shift, Repeat;
  }

  lemma WholeText(n: Dec)
    requires Normal(n) && n.coefficient != 0 && n.exponent >= 0
    ensures '.' !in Format(n) && Format(n) != "-0" && Format(n) != ""
    ensures Parse(Format(n)) == Dec(n.negative, Shift(n.coefficient, n.exponent), 0)
  {
    WholeDigits(n.coefficient, n.exponent);
    var t := Decimal(n.coefficient) + Repeat(n.exponent);
    var f := (if n.negative then "-" else "") + t;
    assert Format(n) == f;
    hide *;
    ParseWhole(n.negative, t);
    SignedDigits(n.negative, t);
  }

  lemma SignedDigits(negative: bool, t: string)
    requires Digits(t) && t != "" && t[0] != '0'
    ensures var f := (if negative then "-" else "") + t; '.' !in f && f != "-0" && f != ""
  {
    var f := (if negative then "-" else "") + t;
    assert negative ==> f[1] == t[0];
    assert !negative ==> f[0] == t[0] && IsDigit(t[0]);
    assert "-0"[0] == '-' && "-0"[1] == '0';
  }

  lemma FractionShape(n: Dec)
    requires Normal(n) && n.coefficient != 0 && n.exponent < 0
    ensures |Format(n)| > 2 && Format(n)[|Format(n)| - 1] != '0' && Format(n)[|Format(n)| - 1] != '.'
  {
    PaddedShape(n.coefficient, -n.exponent);
    LastIsNotZero(n.coefficient);
    hide Padded, Value, Digit, Digits;
    FormatLast(n);
  }

  lemma FormatParts(n: Dec)
    requires n.exponent < 0
    ensures var p := Padded(n.coefficient, -n.exponent);
            Format(n) == (if n.negative then "-" else "") + p[..|p| + n.exponent] + "." + p[|p| + n.exponent..]
  {
    hide Padded;
  }

  lemma FractionParse(n: Dec)
    requires n.exponent < 0
    ensures Parse(Format(n)) == n
  {
    hide *;
    PaddedShape(n.coefficient, -n.exponent);
    FormatParts(n);
    var p := Padded(n.coefficient, -n.exponent);
    DigitsOfParts(p, |p| + n.exponent);
    ParseFraction(n.negative, p[..|p| + n.exponent], p[|p| + n.exponent..]);
    assert p[..|p| + n.exponent] + p[|p| + n.exponent..] == p;
  }

  lemma FractionText(n: Dec)
    requires Normal(n) && n.coefficient != 0 && n.exponent < 0
    ensures Format(n) != "-0" && Format(n)[|Format(n)| - 1] != '0' && Format(n)[|Format(n)| - 1] != '.'
    ensures Parse(Format(n)) == n
  {
    hide Format, Parse;
    FractionShape(n);
    FractionParse(n);
  }

  lemma DigitsOfParts(p: string, k: nat)
    requires Digits(p) && k <= |p|
    ensures Digits(p[..k]) && Digits(p[k..])
  {
  }

  lemma LastIsNotZero(c: nat)
    requires c % 10 != 0
    ensures Digit(c % 10) != '0' && Digit(c % 10) != '.'
  {
  }

  lemma FormatLast(n: Dec)
    requires n.exponent < 0
    ensures var p := Padded(n.coefficient, -n.exponent);
            |Format(n)| > 0 && Format(n)[|Format(n)| - 1] == p[|p| - 1]
  {
    hide Padded;
  }

  /** Canonical text: a sign if need be, digits without a needless leading zero, and a point only before a
      fraction that does not end in zero. */
  predicate CanonicalText(s: string, negative: bool, whole: string, part: string) {
    && s == (if negative then "-" else "") + whole + (if part == "" then "" else "." + part)
    && Digits(whole) && Digits(part) && whole != "" && (whole[0] == '0' ==> whole == "0")
    && (part != "" ==> part[|part| - 1] != '0') && (whole == "0" && part == "" ==> !negative)
  }

  lemma WholeIsCanonical(n: Dec)
    requires Normal(n) && n.coefficient != 0 && n.exponent >= 0
    ensures CanonicalText(Format(n), n.negative, Decimal(n.coefficient) + Repeat(n.exponent), "")
  {
    WholeDigits(n.coefficient, n.exponent);
    hide Decimal, Repeat, Normal;
    assert forall s: string :: s + "" == s;
  }

  lemma FractionIsCanonical(n: Dec)
    requires Normal(n) && n.coefficient != 0 && n.exponent < 0
    ensures var p := Padded(n.coefficient, -n.exponent);
            CanonicalText(Format(n), n.negative, p[..|p| + n.exponent], p[|p| + n.exponent..])
  {
    var p := Padded(n.coefficient, -n.exponent);
    PaddedShape(n.coefficient, -n.exponent);
    LastIsNotZero(n.coefficient);
    FormatParts(n);
    DigitsOfParts(p, |p| + n.exponent);
    PaddedHead(n.coefficient, -n.exponent);
    hide Padded, Format, Value, Digit, Digits, Normal;
    var whole, part := p[..|p| + n.exponent], p[|p| + n.exponent..];
    var sign := if n.negative then "-" else "";
    assert sign + whole + "." + part == sign + whole + ("." + part);
    assert part[|part| - 1] == p[|p| - 1];
  }

  /** Padding puts a single zero before the point. */
  lemma PaddedHead(c: nat, places: nat)
    requires c != 0
    ensures var p := Padded(c, places); p[0] == '0' ==> p[..|p| - places] == "0"
  {
    DecimalShape(c);
    if |Decimal(c)| <= places {
      RepeatAt(places + 1 - |Decimal(c)|);
    }
  }

  lemma {:induction false} RepeatAt(n: nat)
    ensures n > 0 ==> Repeat(n)[0] == '0'
  {
    if n > 1 { RepeatAt(n - 1); }
  }

  /** What is rendered is always in that form: no exponent, no trailing zeros, no negative zero. */
  lemma TextIsCanonical(d: Dec)
    ensures exists negative, whole, part :: CanonicalText(Render(d), negative, whole, part)
  {
    RenderIsPlain(d);
    NormalizeIsNormal(d);
    var n := Normalize(d);
    hide Render, Normalize, Format, Normal;
    if n.coefficient == 0 {
      assert "0" + "" == "0";
      assert CanonicalText("0", false, "0", "");
    } else if n.exponent >= 0 {
      WholeIsCanonical(n);
    } else {
      FractionIsCanonical(n);
    }
  }

  // ------------------------------------------------------------- theorems

  /** The rendered text denotes the normalised number. */
  lemma ParsedText(d: Dec)
    ensures Same(Parse(Render(d)), Normalize(d)) && Normalize(Parse(Render(d))).negative == Parse(Render(d)).negative
  {
    RenderIsPlain(d);
    NormalizeIsNormal(d);
    NormalizeIsNormal(Parse(Render(d)));
    var n := Normalize(d);
    hide Render, Normalize, Format, Decimal;
    if n.coefficient == 0 {
      assert Parse("0") == Dec(false, 0, 0);
    } else if n.exponent >= 0 {
      WholeText(n);
      assert Shift(Shift(n.coefficient, n.exponent), 0) == Shift(n.coefficient, n.exponent);
    } else {
      FractionText(n);
    }
  }

  /** Parsing the canonical text gives the same number exactly when it has at most 28 significant digits. */
  lemma RoundTrip(d: Dec)
    ensures Same(Parse(Render(d)), d) <==> Representable(d)
  {
    hide Same, Representable, Normalize, Parse, Render;
    ParsedText(d);
    NormalizeKeeps(d);
    SameSymmetric(Parse(Render(d)), Normalize(d));
    if Representable(d) {
      SameTransitive(Parse(Render(d)), Normalize(d), d);
    }
    if Same(Parse(Render(d)), d) {
      SameTransitive(Normalize(d), Parse(Render(d)), d);
    }
  }

  /** A normalised number has at most 28 significant digits. */
  lemma NormalizedFits(d: Dec)
    ensures Representable(Normalize(d))
  {
    var c := d.coefficient;
    var r := Rounded(c).0;
    CoreShift(r);
    CoreOfNormal(Normalize(d));
    LengthOfCore(r);
    if |Decimal(c)| > PRECISION {
      var q := Drop(c, |Decimal(c)| - PRECISION);
      LengthOfDrop(c, |Decimal(c)| - PRECISION);
      NextLength(q);
    }
  }

  lemma CoreOfNormal(n: Dec)
    requires Normal(n)
    ensures Core(n.coefficient) == n.coefficient
  {
  }

  /** A number's successor is no longer in digits, but for a power of ten, whose core is 1. */
  lemma {:induction false} NextLength(c: nat)
    ensures |Decimal(Core(c + 1))| <= |Decimal(c)|
  {
    if (c + 1) % 10 == 0 && c + 1 >= 10 {
      NextLength(c / 10);
    } else if c >= 10 {
      assert (c + 1) / 10 == c / 10;
    }
  }

  /** Rendering the parsed text again gives the text: the server's canonical value is the agent's, byte for byte. */
  lemma RenderingIsIdempotent(d: Dec)
    ensures Render(Parse(Render(d))) == Render(d)
  {
    var e := Parse(Render(d));
    ParsedText(d);
    NormalizedFits(d);
    NormalizeIsNormal(d);
    RepresentableMoves(Normalize(d), e);
    NormalizeKeeps(e);
    NormalizeIsNormal(e);
    SameTransitive(Normalize(e), e, Normalize(d));
    NormalUnique(Normalize(e), Normalize(d));
    RenderIsPlain(d);
    RenderIsPlain(e);
  }

  /** How many significant digits a number has does not depend on how it is written. */
  lemma RepresentableMoves(a: Dec, b: Dec)
    requires Same(b, a) && Representable(a)
    ensures Representable(b)
  {
    var e := if a.exponent < b.exponent then a.exponent else b.exponent;
    CoreIsCore(a.coefficient, a.exponent - e);
    CoreIsCore(b.coefficient, b.exponent - e);
  }

  /** Two representable decimals have the same text exactly when they are the same number. */
  lemma TextIdentifiesNumber(a: Dec, b: Dec)
    requires Representable(a) && Representable(b)
    ensures Render(a) == Render(b) <==> Same(a, b)
  {
    hide Render, Normalize, Parse, Same, Representable;
    RoundTrip(a);
    RoundTrip(b);
    if Render(a) == Render(b) {
      SameSymmetric(Parse(Render(a)), a);
      SameTransitive(a, Parse(Render(a)), b);
    }
    if Same(a, b) {
      SameTexts(a, b);
    }
  }

  lemma SameTexts(a: Dec, b: Dec)
    requires Representable(a) && Representable(b) && Same(a, b)
    ensures Render(a) == Render(b)
  {
    hide Render, Normalize, Same, Representable;
    NormalizeKeeps(a);
    NormalizeKeeps(b);
    NormalizeIsNormal(a);
    NormalizeIsNormal(b);
    SameSymmetric(Normalize(b), b);
    SameTransitive(Normalize(a), a, b);
    SameTransitive(Normalize(a), b, Normalize(b));
    NormalUnique(Normalize(a), Normalize(b));
    RenderIsPlain(a);
    RenderIsPlain(b);
  }

  /** Beyond 28 significant digits texts do collide: a 29th digit of 0 and one of 1 render alike. */
  lemma LongValuesCollide(c: nat, negative: bool, exponent: int)
    requires |Decimal(c)| == 29 && c % 10 == 0
    ensures Render(Dec(negative, c + 1, exponent)) == Render(Dec(negative, c, exponent))
    ensures !Same(Dec(negative, c + 1, exponent), Dec(negative, c, exponent))
  {
    NextDigits(c);
    LastDigitDropped(c);
    LastDigitDropped(c + 1);
    hide Decimal, Core, Zeros, Format;
    assert Normalize(Dec(negative, c + 1, exponent)) == Normalize(Dec(negative, c, exponent));
  }

  lemma NextDigits(c: nat)
    requires c >= 10 && c % 10 == 0
    ensures |Decimal(c + 1)| == |Decimal(c)| && (c + 1) / 10 == c / 10
  {
  }

  lemma LastDigitDropped(c: nat)
    requires |Decimal(c)| == 29 && c % 10 < 5
    ensures Rounded(c) == (c / 10, 1)
  {
    hide Decimal;
    assert Drop(c, 1) == Drop(c / 10, 0) == c / 10;
    assert Shift(c / 10, 1) == 10 * (c / 10) && Shift(1, 1) == 10;
  }
}
