/** JavaScript values the player's logic relies on: optional fields, numbers
    that may be NaN or infinite, and the decimal rendering of integers. */
module JsValues {

  /** An optional value: a TypeScript `T | null` or an optional property `p?: T`. */
  datatype Option<T> = None | Some(value: T)

  /** A JavaScript number. Finite numbers are exact reals here (IEEE-754
      rounding is not modelled); NaN and the two infinities are kept apart
      because the player treats them specially. */
  datatype Num = Finite(value: real) | NaN | PositiveInfinity | NegativeInfinity

  /** `Math.trunc` of a finite number: rounds toward zero. */
  function Trunc(x: real): (r: int)
    ensures 0.0 <= x ==> r == x.Floor
    ensures x < 0.0 ==> x <= r as real < x + 1.0
  {
    if 0.0 <= x then x.Floor else -((-x).Floor)
  }

  /** The `%` operator on finite numbers: the dividend minus a whole multiple
      of the divisor, smaller than the divisor in size and with the sign of
      the dividend, unlike Dafny's Euclidean `%`. */
  function Rem(x: real, y: real): (r: real)
    requires y != 0.0
    ensures ((x - r) / y).Floor as real == (x - r) / y
    ensures 0.0 <= x && 0.0 < y ==> 0.0 <= r < y
    ensures x < 0.0 && 0.0 < y ==> -y < r <= 0.0
  {
    var q := Trunc(x / y);
    RemWholeMultiple(x, y, q);
    if 0.0 < y then RemBounds(x, y, x / y, q); x - (q as real) * y
    else x - (q as real) * y
  }

  /** Removing `q` times `y` from `x` leaves a whole multiple of `y` behind. */
  lemma RemWholeMultiple(x: real, y: real, q: int)
    requires y != 0.0
    ensures var r := x - (q as real) * y; ((x - r) / y).Floor as real == (x - r) / y
  {
    var r := x - (q as real) * y;
    assert x - r == y * (q as real);
    assert (y * (q as real)) / y == q as real;
  }

  /** With the quotient `z` rounded toward zero, the remainder keeps the sign
      of the dividend and is smaller than the divisor. */
  lemma RemBounds(x: real, y: real, z: real, q: int)
    requires 0.0 < y && z * y == x && q == Trunc(z)
    ensures var r := x - (q as real) * y;
      (0.0 <= x ==> 0.0 <= r < y) && (x < 0.0 ==> -y < r <= 0.0)
  {
    FactorSign(z, y);
    if 0.0 <= x {
      QuotientBounds(x, y, z, q as real);
    } else {
      QuotientBoundsNeg(x, y, z, q as real);
    }
  }

  /** A product with a positive factor has the sign of the other factor. */
  lemma FactorSign(z: real, y: real)
    requires 0.0 < y
    ensures z < 0.0 ==> z * y < 0.0
    ensures 0.0 <= z ==> 0.0 <= z * y
  {
    if z < 0.0 {
      ScaledGap(z, 0.0, y, z * y, 0.0);
    } else if 0.0 < z {
      ProductPositive(z, y);
    }
  }

  /** A non-negative quotient `z` of `x` by `y`, rounded down to `w`, leaves
      a remainder in [0, y). */
  lemma QuotientBounds(x: real, y: real, z: real, w: real)
    requires 0.0 < y && z * y == x && w <= z < w + 1.0
    ensures 0.0 <= x - w * y < y
  {
    ScaledGap(z, w + 1.0, y, x, w * y + y);
    if w < z {
      ScaledGap(w, z, y, w * y, x);
    }
  }

  /** A negative quotient `z` of `x` by `y`, rounded up to `w`, leaves a
      remainder in (-y, 0]. */
  lemma QuotientBoundsNeg(x: real, y: real, z: real, w: real)
    requires 0.0 < y && z * y == x && z <= w < z + 1.0
    ensures -y < x - w * y <= 0.0
  {
    ScaledGap(w, z + 1.0, y, w * y, x + y);
    if z < w {
      ScaledGap(z, w, y, x, w * y);
    }
  }

  /** Multiplying by a positive `y` keeps a strict order; the two products
      are passed in by name so that the solver does not factor them. */
  lemma ScaledGap(a: real, b: real, y: real, pa: real, pb: real)
    requires 0.0 < y && a < b && pa == a * y && pb == b * y
    ensures pa < pb
  {
    ProductPositive(b - a, y);
    assert (b - a) * y == pb - pa;
  }

  lemma ProductPositive(a: real, b: real)
    requires 0.0 < a && 0.0 < b
    ensures 0.0 < a * b
  {
  }

  predicate IsDigit(c: char) { '0' <= c <= '9' }

  function Digit(d: nat): (c: char)
    requires d < 10
    ensures IsDigit(c)
  {
    ('0' as int + d) as char
  }

  function DigitValue(c: char): (d: nat)
    requires IsDigit(c)
    ensures d < 10 && Digit(d) == c
  {
    c as int - '0' as int
  }

  /** `n.toString()` for a non-negative integer: its decimal digits, most
      significant first, without leading zeros. */
  function NatToString(n: nat): (r: string)
    ensures 1 <= |r|
    ensures forall i :: 0 <= i < |r| ==> IsDigit(r[i])
    ensures n < 10 <==> |r| == 1
    ensures 1 < |r| ==> r[0] != '0'
  {
    if n < 10 then [Digit(n)] else NatToString(n / 10) + [Digit(n % 10)]
  }

  /** `n.toString()` for any integer: the decimal digits of its magnitude,
      after a minus sign when it is negative. */
  function IntToString(n: int): (r: string)
    ensures 0 <= n ==>
      1 <= |r| && (1 < |r| ==> r[0] != '0') &&
      (forall i :: 0 <= i < |r| ==> IsDigit(r[i])) && DecimalValue(r) == n
    ensures n < 0 ==>
      1 < |r| && r[0] == '-' && r[1] != '0' &&
      (forall i :: 1 <= i < |r| ==> IsDigit(r[i])) && DecimalValue(r[1..]) == -n
  {
    if n < 0 then
      NatToStringRoundTrip(-n);
      var r := "-" + NatToString(-n);
      assert r[1..] == NatToString(-n);
      r
    else
      NatToStringRoundTrip(n);
      NatToString(n)
  }

  /** `s.padStart(width, fill)` with a one-character fill: fills on the left
      up to `width` characters and never shortens `s`. */
  function PadStart(s: string, width: nat, fill: char): (r: string)
    ensures |r| == if |s| < width then width else |s|
    ensures r[|r| - |s|..] == s
    ensures forall i :: 0 <= i < |r| - |s| ==> r[i] == fill
  {
    if |s| < width then seq(width - |s|, _ => fill) + s else s
  }

  /** Reads a string of decimal digits back as the number it denotes. */
  function DecimalValue(s: string): nat
    requires forall i :: 0 <= i < |s| ==> IsDigit(s[i])
  {
    if s == [] then 0 else DecimalValue(s[..|s| - 1]) * 10 + DigitValue(s[|s| - 1])
  }

  /** Rendering a natural number and reading it back gives the number again. */
  lemma {:induction false} NatToStringRoundTrip(n: nat)
    ensures DecimalValue(NatToString(n)) == n
  {
    if 10 <= n {
      var prefix := NatToString(n / 10);
      var r := prefix + [Digit(n % 10)];
      assert r[..|r| - 1] == prefix;
      NatToStringRoundTrip(n / 10);
    }
  }

  /** Two naturals render to the same text only if they are equal. */
  lemma NatToStringInjective(m: nat, n: nat)
    requires NatToString(m) == NatToString(n)
    ensures m == n
  {
    NatToStringRoundTrip(m);
    NatToStringRoundTrip(n);
  }
}
