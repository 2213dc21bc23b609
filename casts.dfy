/** Rust's numeric `as` casts between `f64` and the narrower field types of `Tuple`.
    An `f64` is modelled as a `real`; the casts that lose information are written out. */
module Casts {

  /** Largest value of a `u32`. */
  const U32_MAX: nat := 0xFFFF_FFFF

  type U32 = n: nat | n <= U32_MAX

  /** `value as u32` for a finite `f64`: the fractional part is dropped (truncation toward
      zero) and the result saturates at the bounds of `u32`. */
  function ToU32(value: real): (r: U32)
    ensures value < 0.0 ==> r == 0
    ensures value >= (U32_MAX + 1) as real ==> r == U32_MAX
    ensures 0.0 <= value < (U32_MAX + 1) as real ==> r as real <= value < r as real + 1.0
  {
    if value < 0.0 then 0
    else if value >= U32_MAX as real then U32_MAX
    else value.Floor
  }

  /** Widening a `u32` to `f64` is exact, so casting it back gives the same integer. */
  lemma ToU32OfWidened(n: U32)
    ensures ToU32(n as real) == n
  {
  }

  /** Narrowing never goes the wrong way: a larger `f64` never gives a smaller `u32`. */
  lemma ToU32Monotone(x: real, y: real)
    requires x <= y
    ensures ToU32(x) <= ToU32(y)
  {
  }

  // ---------------------------------------------------------------------------
  // `value as f32`: round to the nearest `f32`, ties to even.

  /** Bits of significand of an `f32`, the hidden bit included. */
  const F32_PRECISION: int := 24
  /** Exponent of the smallest normal `f32`; below it the spacing stays 2^(F32_MIN_EXP - 23). */
  const F32_MIN_EXP: int := -126
  /** Exponent of the largest finite `f32`. */
  const F32_MAX_EXP: int := 127

  /** 2^k for a natural exponent. */
  function Pow2Nat(k: nat): (r: nat)
    ensures r >= 1
  {
    if k == 0 then 1 else 2 * Pow2Nat(k - 1)
  }

  /** 2^e for any integer exponent. */
  function Pow2(e: int): (r: real)
    ensures r > 0.0
    ensures e >= 0 ==> r >= 1.0
    ensures e < 0 ==> r <= 1.0
  {
    if e >= 0 then Pow2Nat(e) as real else 1.0 / Pow2Nat(-e) as real
  }

  lemma {:induction false} Pow2NatAdd(a: nat, b: nat)
    ensures Pow2Nat(a + b) == Pow2Nat(a) * Pow2Nat(b)
  {
    if b > 0 {
      Pow2NatAdd(a, b - 1);
      assert Pow2Nat(a + b) == 2 * Pow2Nat(a + b - 1);
    }
  }

  lemma {:induction false} Pow2NatMonotone(a: nat, b: nat)
    requires a <= b
    ensures Pow2Nat(a) <= Pow2Nat(b)
    decreases b - a
  {
    if a < b {
      Pow2NatMonotone(a, b - 1);
    }
  }

  lemma Pow2Of24()
    ensures Pow2Nat(24) == 0x100_0000
  {
    assert Pow2Nat(3) == 8;
    Pow2NatAdd(3, 3);
    Pow2NatAdd(6, 6);
    Pow2NatAdd(12, 12);
  }

  /** The exponent an `f32` rounding of the positive `x` works at, searching down from `e`:
      the largest exponent not above `e` whose power of two is at most `x`, or the smallest
      normal exponent when `x` is below every candidate. */
  function ExponentFrom(x: real, e: int): (r: int)
    requires x > 0.0 && e >= F32_MIN_EXP
    ensures F32_MIN_EXP <= r <= e
    ensures r == F32_MIN_EXP || Pow2(r) <= x
    ensures r == e || x < Pow2(r + 1)
    decreases e - F32_MIN_EXP
  {
    if e == F32_MIN_EXP || Pow2(e) <= x then e else ExponentFrom(x, e - 1)
  }

  /** The spacing of the `f32` values around the positive `x`. */
  function Spacing(x: real): (r: real)
    requires x > 0.0
    ensures r > 0.0
  {
    Pow2(ExponentFrom(x, F32_MAX_EXP) - (F32_PRECISION - 1))
  }

  /** The integer nearest to `y`; of two equally near, the even one. */
  function RoundTiesEven(y: real): (n: int)
    ensures -0.5 <= n as real - y <= 0.5
    ensures (n as real - y == 0.5 || y - n as real == 0.5) ==> n % 2 == 0
  {
    var f := y.Floor;
    var frac := y - f as real;
    if frac < 0.5 then f
    else if frac > 0.5 then f + 1
    else if f % 2 == 0 then f
    else f + 1
  }

  /** The multiple of the step `q` nearest to `x`; of two equally near, the even multiple.
      A non-negative `x` never rounds below zero. */
  function RoundToMultiple(x: real, q: real): (r: real)
    requires q > 0.0
    ensures r / q == (r / q).Floor as real
    ensures -q / 2.0 <= r - x <= q / 2.0
    ensures (r - x == q / 2.0 || x - r == q / 2.0) ==> (r / q).Floor % 2 == 0
    ensures x >= 0.0 ==> r >= 0.0
  {
    var n := RoundTiesEven(x / q);
    ScaledMultiple(n, x, q);
    n as real * q
  }

  /** What rounding `x / q` to the integer `n` promises carries over, scaled by `q`, to the
      multiple `n * q` as an approximation of `x`. */
  lemma ScaledMultiple(n: int, x: real, q: real)
    requires q > 0.0
    requires -0.5 <= n as real - x / q <= 0.5
    requires (n as real - x / q == 0.5 || x / q - n as real == 0.5) ==> n % 2 == 0
    ensures var r := n as real * q;
      && r / q == (r / q).Floor as real
      && -q / 2.0 <= r - x <= q / 2.0
      && ((r - x == q / 2.0 || x - r == q / 2.0) ==> (r / q).Floor % 2 == 0)
      && (x >= 0.0 ==> r >= 0.0)
  {
    var r := n as real * q;
    var d := n as real - x / q;
    ScaledBack(n, x, q);
    ScaledError(n as real, x, q);
    HalfStep(d, q);
    assert (r / q).Floor == n;
    assert d * q == r - x;
    if r - x == q / 2.0 {
      assert d == 0.5;
    }
    if x - r == q / 2.0 {
      assert -(d * q) == q / 2.0;
      assert d == -0.5;
    }
    if x >= 0.0 {
      NonNegativeMultiple(n, x, q);
    }
  }

  /** Dividing the multiple `n * q` by `q` gives `n` back, and the error of `n` against
      `x / q`, scaled by `q`, is the error of `n * q` against `x`. */
  lemma ScaledBack(n: int, x: real, q: real)
    requires q > 0.0
    ensures (n as real * q) / q == n as real
    ensures (n as real - x / q) * q == n as real * q - x
  {
  }

  /** An error of exactly half a step, scaled back, is an error of exactly one half. */
  lemma HalfStep(d: real, q: real)
    requires q > 0.0
    ensures d * q == q / 2.0 ==> d == 0.5
    ensures -(d * q) == q / 2.0 ==> d == -0.5
  {
    if d * q == q / 2.0 {
      assert (d - 0.5) * q == 0.0;
    }
    if -(d * q) == q / 2.0 {
      assert (d + 0.5) * q == 0.0;
    }
  }

  /** A non-negative `x` is never rounded to a negative multiple. */
  lemma NonNegativeMultiple(n: int, x: real, q: real)
    requires q > 0.0 && x >= 0.0
    requires -0.5 <= n as real - x / q
    ensures n as real * q >= 0.0
  {
    assert x / q >= 0.0;
    assert n >= 0;
  }

  /** Rounding of a positive `x` to the `f32` spacing at its magnitude. */
  function RoundPositive(x: real): (r: real)
    requires x > 0.0
  {
    RoundToMultiple(x, Spacing(x))
  }

  /** Scaling back by the spacing scales the rounding error by the spacing too. */
  lemma ScaledError(n: real, x: real, q: real)
    requires q > 0.0
    requires -0.5 <= n - x / q <= 0.5
    ensures -q / 2.0 <= n * q - x <= q / 2.0
  {
    var d := n - x / q;
    assert d * q == n * q - x;
    if d >= 0.0 {
      assert d * q <= 0.5 * q;
    } else {
      assert -d * q <= 0.5 * q;
    }
  }

  /** `value as f32`, read back as `f64`: the nearest multiple of the `f32` spacing at the
      magnitude of `value`, ties to even; the sign is kept. */
  function RoundF32(value: real): (r: real)
    ensures value == 0.0 ==> r == 0.0
    ensures value > 0.0 ==> r >= 0.0
    ensures value < 0.0 ==> r <= 0.0
  {
    if value == 0.0 then 0.0
    else if value > 0.0 then RoundPositive(value)
    else -RoundPositive(-value)
  }

  /** Narrowing lands on the `f32` grid at the value's magnitude (a whole multiple of the
      spacing), moves the value by at most half that spacing, and on an exact tie picks the
      even multiple. */
  lemma RoundF32Nearest(value: real)
    requires value != 0.0
    ensures var s := Spacing(if value > 0.0 then value else -value);
      var r := RoundF32(value);
      && r / s == (r / s).Floor as real
      && -s / 2.0 <= r - value <= s / 2.0
      && ((r - value == s / 2.0 || value - r == s / 2.0) ==> (r / s).Floor % 2 == 0)
  {
    if value < 0.0 {
      var s := Spacing(-value);
      var p := RoundPositive(-value);
      assert RoundF32(value) == -p;
      NegatedOnGrid(p, s);
    }
  }

  /** Negating a multiple of `s` gives a multiple of `s` of the same parity. */
  lemma NegatedOnGrid(p: real, s: real)
    requires s > 0.0
    requires p / s == (p / s).Floor as real
    ensures (-p) / s == ((-p) / s).Floor as real
    ensures (p / s).Floor % 2 == 0 <==> ((-p) / s).Floor % 2 == 0
  {
    var k := (p / s).Floor;
    assert (-p) / s == (-k) as real;
  }

  /** Narrowing is symmetric about zero. */
  lemma RoundF32Odd(value: real)
    ensures RoundF32(-value) == -RoundF32(value)
  {
  }

  /** Every integer below 2^24 in magnitude is an `f32`, so narrowing it changes nothing. */
  lemma RoundF32Exact(n: int)
    requires -0x100_0000 < n < 0x100_0000
    ensures RoundF32(n as real) == n as real
  {
    if n > 0 {
      PositiveIntegerExact(n);
    } else if n < 0 {
      NegativeIntegerExact(n);
    }
  }

  lemma PositiveIntegerExact(n: int)
    requires 0 < n < 0x100_0000
    ensures RoundF32(n as real) == n as real
  {
    RoundPositiveExact(n);
  }

  lemma NegativeIntegerExact(n: int)
    requires -0x100_0000 < n < 0
    ensures RoundF32(n as real) == n as real
  {
    var m := -n;
    RoundPositiveExact(m);
    RoundF32OfNegative(m as real);
    assert n as real == -(m as real);
  }

  lemma RoundF32OfNegative(y: real)
    requires y > 0.0
    ensures RoundF32(-y) == -RoundPositive(y)
  {
  }

  lemma RoundPositiveExact(n: int)
    requires 0 < n < 0x100_0000
    ensures RoundPositive(n as real) == n as real
  {
    var e := SmallIntegerExponent(n);
    var p := Pow2Nat(23 - e);
    Pow2NotPositive(e - 23);
    assert Spacing(n as real) == 1.0 / p as real;
    ExactAtFineStep(n, p);
  }

  /** 2^e, for e at most 0, is the reciprocal of 2^-e. */
  lemma Pow2NotPositive(e: int)
    requires e <= 0
    ensures Pow2(e) == 1.0 / Pow2Nat(-e) as real
  {
  }

  /** An integer is already a multiple of any step 1/p, so rounding to that step keeps it. */
  lemma ExactAtFineStep(n: int, p: nat)
    requires p >= 1
    ensures RoundToMultiple(n as real, 1.0 / p as real) == n as real
  {
    var q := 1.0 / p as real;
    DivideByInverse(n as real, p as real);
    var m := n * p;
    assert n as real / q == m as real;
    assert RoundTiesEven(m as real) == m;
    MultiplyByInverse(n as real, p as real);
  }

  /** A positive integer below 2^24 is rounded at an exponent between 0 and 23. */
  lemma SmallIntegerExponent(n: int) returns (e: int)
    requires 0 < n < 0x100_0000
    ensures e == ExponentFrom(n as real, F32_MAX_EXP)
    ensures 0 <= e <= 23
  {
    e := ExponentFrom(n as real, F32_MAX_EXP);
    // 2^e <= n < 2^24 places e below 24 ...
    if e >= 24 {
      Pow2Of24();
      Pow2NatMonotone(24, e);
      assert false;
    }
    // ... and 1 <= n < 2^(e+1) places it at 0 or above.
  }

  lemma DivideByInverse(x: real, p: real)
    requires p > 0.0
    ensures x / (1.0 / p) == x * p
  {
  }

  lemma MultiplyByInverse(m: real, p: real)
    requires p > 0.0
    ensures (m * p) * (1.0 / p) == m
  {
  }
}
