/** Fixed-width integer semantics of the ledger's Rust code: the unsigned and
    signed 128-bit ranges, the `saturating_*` operations as clamps, the
    wrapping `as i128` cast, and Rust's truncating signed division. */
module Arith {

  const U64_MAX: int := 0xFFFF_FFFF_FFFF_FFFF
  const U128_MAX: int := 0xFFFF_FFFF_FFFF_FFFF_FFFF_FFFF_FFFF_FFFF
  const TWO_128: int := 0x1_0000_0000_0000_0000_0000_0000_0000_0000
  const I128_MAX: int := 0x7FFF_FFFF_FFFF_FFFF_FFFF_FFFF_FFFF_FFFF
  const I128_MIN: int := -0x8000_0000_0000_0000_0000_0000_0000_0000

  /** Micro-USD: every USD amount and every price carries six decimals. */
  const USD_SCALE: int := 1_000_000
  /** Basis points in one whole. */
  const BPS: int := 10_000
  const SECONDS_PER_YEAR: int := 365 * 24 * 60 * 60

  type u8 = x: int | 0 <= x <= 0xFF
  type u16 = x: int | 0 <= x <= 0xFFFF
  type u32 = x: int | 0 <= x <= 0xFFFF_FFFF
  type u64 = x: int | 0 <= x <= 0xFFFF_FFFF_FFFF_FFFF
  type u128 = x: int | 0 <= x <= 0xFFFF_FFFF_FFFF_FFFF_FFFF_FFFF_FFFF_FFFF
  type i128 = x: int | -0x8000_0000_0000_0000_0000_0000_0000_0000 <= x <= 0x7FFF_FFFF_FFFF_FFFF_FFFF_FFFF_FFFF_FFFF

  function Min(a: int, b: int): int { if a <= b then a else b }
  function Max(a: int, b: int): int { if a <= b then b else a }
  function Abs(a: int): nat { if a < 0 then -a else a }

  /** Clamp into the u128 range. */
  function ClampU(x: int): u128 { if x < 0 then 0 else if x > U128_MAX then U128_MAX else x }
  /** Clamp into the i128 range. */
  function ClampI(x: int): i128 { if x < I128_MIN then I128_MIN else if x > I128_MAX then I128_MAX else x }

  // u128::saturating_add / saturating_sub / saturating_mul
  function SatAdd(a: nat, b: nat): u128 { ClampU(a + b) }
  function SatSub(a: nat, b: nat): u128 { ClampU(a - b) }
  function SatMul(a: nat, b: nat): u128 { ClampU(a * b) }

  // u64::saturating_sub
  function SatSub64(a: u64, b: u64): u64 { if a <= b then 0 else a - b }

  // i128::saturating_add / saturating_sub / saturating_mul
  function SatAddI(a: int, b: int): i128 { ClampI(a + b) }
  function SatSubI(a: int, b: int): i128 { ClampI(a - b) }
  function SatMulI(a: int, b: int): i128 { ClampI(a * b) }

  /** `x as i128` for a u128 `x`: values at or above 2^127 wrap to negatives. */
  function ToI128(x: u128): i128 { if x <= I128_MAX then x else x - TWO_128 }

  /** Rust's `/` on signed integers: the quotient is truncated toward zero. */
  function Quot(a: int, b: int): int
    requires b != 0
  {
    if a >= 0 then (if b > 0 then a / b else -(a / -b))
    else (if b > 0 then -((-a) / b) else (-a) / (-b))
  }

  lemma MulLe(a: int, b: int, k: nat)
    requires a <= b
    ensures k * a <= k * b
  {
  }

  lemma MulLtCancel(k: int, x: int, y: int)
    requires k > 0 && k * x < k * y
    ensures x < y
  {
    if x >= y {
      MulLe(y, x, k);
    }
  }

  /** Integer division by a positive divisor is monotone. */
  lemma DivLe(a: nat, b: nat, c: int)
    requires a <= b && c > 0
    ensures a / c <= b / c
  {
    assert c * (a / c) <= a;
    assert b < c * (b / c) + c;
    MulLtCancel(c, a / c, b / c + 1);
  }

  /** Dividing by a positive number never increases a natural number. */
  lemma DivLeSelf(a: nat, c: int)
    requires c > 0
    ensures a / c <= a
  {
    if c > 1 {
      MulLe(1, c, a / c);
    }
  }

  /** The truncated quotient is never larger in magnitude than the dividend
      and, for a positive divisor, never has the opposite sign. */
  lemma QuotBound(a: int, b: int)
    requires b != 0
    ensures Abs(Quot(a, b)) <= Abs(a)
    ensures b > 0 && a >= 0 ==> Quot(a, b) >= 0
    ensures b > 0 && a <= 0 ==> Quot(a, b) <= 0
  {
    if a >= 0 {
      if b > 0 { DivLeSelf(a, b); } else { DivLeSelf(a, -b); }
    } else {
      if b > 0 { DivLeSelf(-a, b); } else { DivLeSelf(-a, -b); }
    }
  }

  /** Truncating division by a positive divisor is monotone. */
  lemma QuotMono(a1: int, a2: int, b: int)
    requires a1 <= a2 && b > 0
    ensures Quot(a1, b) <= Quot(a2, b)
  {
    if a1 >= 0 {
      DivLe(a1, a2, b);
    } else if a2 >= 0 {
    } else {
      DivLe(-a2, -a1, b);
    }
  }

  /** Truncating division commutes with negation of the dividend. */
  lemma QuotNeg(a: int, b: int)
    requires b != 0
    ensures Quot(-a, b) == -Quot(a, b)
  {
  }

  /** Saturating multiplication by a non-negative factor is monotone. */
  lemma SatMulIMono(a1: int, a2: int, k: nat)
    requires a1 <= a2
    ensures SatMulI(a1, k) <= SatMulI(a2, k)
  {
    MulLe(a1, a2, k);
    assert a1 * k <= a2 * k;
  }

  lemma SatMulMono(a1: nat, a2: nat, k: nat)
    requires a1 <= a2
    ensures SatMul(a1, k) <= SatMul(a2, k)
  {
    MulLe(a1, a2, k);
    assert a1 * k <= a2 * k;
  }
  /** The quotient and remainder of a Euclidean division are unique. */
  lemma DivUnique(a: int, b: int, q: int, r: int)
    requires b > 0 && a == b * q + r && 0 <= r < b
    ensures a / b == q
  {
    var t := q - a / b;
    assert b * t == a % b - r;
    if t >= 1 {
      MulLe(1, t, b);
    } else if t <= -1 {
      MulLe(t, -1, b);
    }
  }

  /** A common positive factor cancels out of a division. */
  lemma DivMulCancel(x: nat, k: int, d: int)
    requires k > 0 && d > 0
    ensures (k * x) / (k * d) == x / d
  {
    var q, r := x / d, x % d;
    assert k * x == (k * d) * q + k * r;
    MulLe(r, d - 1, k);
    DivUnique(k * x, k * d, q, k * r);
  }

  /** Dividing something below `c * d` by `d` gives less than `c`. */
  lemma DivLtOfLtMul(a: nat, c: int, d: int)
    requires d > 0 && a < c * d
    ensures a / d < c
  {
    assert d * (a / d) <= a;
    MulLtCancel(d, a / d, c);
  }
  /** `x.saturating_mul(k) / d` on i128: a saturating product, then a
      truncating quotient. */
  function ScaleDiv(x: int, k: int, d: int): int
    requires d != 0
  {
    Quot(SatMulI(x, k), d)
  }

  /** A non-negative factor and a positive divisor keep the sign of `x`. */
  lemma ScaleDivSign(x: int, k: nat, d: int)
    requires d > 0
    ensures x >= 0 ==> ScaleDiv(x, k, d) >= 0
    ensures x <= 0 ==> ScaleDiv(x, k, d) <= 0
  {
    QuotBound(SatMulI(x, k), d);
  }

  /** ... and keep the order of two values of `x`. */
  lemma ScaleDivMono(x1: int, x2: int, k: nat, d: int)
    requires x1 <= x2 && d > 0
    ensures ScaleDiv(x1, k, d) <= ScaleDiv(x2, k, d)
  {
    SatMulIMono(x1, x2, k);
    QuotMono(SatMulI(x1, k), SatMulI(x2, k), d);
  }
  /** `/` on u128: the quotient never exceeds the dividend. */
  function UDiv(a: nat, b: int): (r: nat)
    requires b > 0
    ensures r <= a
  {
    DivLeSelf(a, b);
    a / b
  }
}
