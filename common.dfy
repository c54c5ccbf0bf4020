/** Types and helpers shared by the whole simulation model. */
module Common {

  /** Rust's `u32`, the type of satellite ids in the simulation. */
  newtype u32 = x: int | 0 <= x < 0x1_0000_0000

  /** A 2-D coordinate pair, Rust's `(f64, f64)`; floats are modelled as reals. */
  type Position = (real, real)

  datatype Option<T> = None | Some(value: T)

  /** `2^n`. */
  function Pow2(n: nat): (p: real)
    ensures p >= 1.0
  {
    if n == 0 then 1.0 else 2.0 * Pow2(n - 1)
  }

  /** The exponent bias and the stored mantissa width of IEEE 754 binary64. */
  const F64_EXPONENT_BIAS: nat := 1023
  const F64_MANTISSA_BITS: nat := 52

  /**
   * `f64::MAX` exactly: the largest finite binary64 value,
   * `(2 - 2^-52) * 2^1023 = 2^1024 - 2^971`.
   */
  const F64_MAX: real := Pow2(F64_EXPONENT_BIAS + 1) - Pow2(F64_EXPONENT_BIAS - F64_MANTISSA_BITS)

  /** Powers of two multiply by adding exponents. */
  lemma {:induction false} Pow2Add(a: nat, b: nat)
    ensures Pow2(a + b) == Pow2(a) * Pow2(b)
  {
    if b > 0 {
      Pow2Add(a, b - 1);
    }
  }

  /** Powers of two grow with the exponent. */
  lemma {:induction false} Pow2Monotone(a: nat, b: nat)
    requires a <= b
    ensures Pow2(a) <= Pow2(b)
  {
    if a < b {
      Pow2Monotone(a, b - 1);
    }
  }

  lemma Pow2Forty()
    ensures Pow2(40) == 1099511627776.0
  {
    assert Pow2(10) == 1024.0;
    Pow2Add(10, 10);
    Pow2Add(20, 20);
  }

  lemma ScaleAtLeast(x: real, m: real)
    requires x >= 1.0 && m >= 0.0
    ensures x * m >= m
  {
    assert x * m - m == (x - 1.0) * m;
  }

  /**
   * `f64::MAX` is at least `10^12`, far above every distance and score of
   * the simulation, so the `< f64::MAX` guards of the relay searches hold
   * for any value below that bound.
   */
  lemma F64MaxIsLarge()
    ensures F64_MAX >= 1000000000000.0
  {
    var top, low := F64_EXPONENT_BIAS + 1, F64_EXPONENT_BIAS - F64_MANTISSA_BITS;
    Pow2Add(low, top - low);
    Pow2Forty();
    Pow2Monotone(40, top - low);
    var m := Pow2(top - low) - 1.0;
    ScaleAtLeast(Pow2(low), m);
  }

  /** `f64::min` on non-NaN operands. */
  function Min(a: real, b: real): (m: real)
    ensures m <= a && m <= b
    ensures m == a || m == b
  {
    if a <= b then a else b
  }
}
