/** The unsigned integers and the 18-digit fixed point numbers of the contracts.
    A `Decimal` is represented by its number of atomics, so 1.0 is `ONE`. */
module FixedPoint {
  const ONE: nat := 1_000_000_000_000_000_000
  const U64_MAX: nat := 0xFFFF_FFFF_FFFF_FFFF
  const U128_MAX: nat := 0xFFFF_FFFF_FFFF_FFFF_FFFF_FFFF_FFFF_FFFF

  function Min(a: nat, b: nat): nat { if a <= b then a else b }

  function Max(a: nat, b: nat): nat { if a >= b then a else b }

  /** `Decimal::from_ratio(a, b)`, and with a = ONE the inverse of a decimal b / ONE. */
  function Ratio(a: nat, b: nat): nat
    requires b > 0
  {
    a * ONE / b
  }

  /** `Uint128 * Decimal`. */
  function MulFloor(amount: nat, decimal: nat): nat { amount * decimal / ONE }

  /** `Decimal::to_uint_ceil`. */
  function Ceil(decimal: nat): nat { if decimal == 0 then 0 else 1 + (decimal - 1) / ONE }

  /** What a floored quotient means: the only facts the proofs use. */
  lemma FloorBounds(a: nat, b: nat)
    requires b > 0
    ensures a / b * b <= a < a / b * b + b
  {
    assert a == a / b * b + a % b;
  }

  lemma CeilBounds(d: nat)
    ensures Ceil(d) * ONE >= d
    ensures Ceil(d) * ONE < d + ONE
  {
    if d > 0 { FloorBounds(d - 1, ONE); }
  }

  lemma MulLe(a: nat, b: nat, c: nat)
    requires a <= b
    ensures a * c <= b * c
  {
  }

  /** The order of quotients follows the order of the products. */
  lemma QuotientAtLeast(n: nat, d: nat, q: nat)
    requires d > 0
    requires q * d <= n
    ensures q <= n / d
  {
    FloorBounds(n, d);
    if n / d < q { MulLe(n / d + 1, q, d); }
  }
}
