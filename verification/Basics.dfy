/** Small shared vocabulary: optional values, results with a refusal, and the
    machine integers whose width the modelled code relies on. */
module Basics {

  datatype Option<+T> = None | Some(value: T)

  datatype Result<+T, +E> = Ok(value: T) | Err(error: E) {
    predicate IsFailure() { Err? }
    function PropagateFailure<U>(): Result<U, E>
      requires Err?
    {
      Err(error)
    }
    function Extract(): T
      requires Ok?
    {
      value
    }
  }

  datatype Check<+E> = Passed | Refused(error: E) {
    predicate IsFailure() { Refused? }
    function PropagateFailure<U>(): Result<U, E>
      requires Refused?
    {
      Err(error)
    }
  }

  function Need<E>(condition: bool, error: E): Check<E> {
    if condition then Passed else Refused(error)
  }

  const U32_MAX := 0xFFFF_FFFF
  const U64_MAX := 0xFFFF_FFFF_FFFF_FFFF

  type U32 = x: nat | x <= U32_MAX
  type U64 = x: nat | x <= U64_MAX
  type Byte = x: nat | x < 256

  /** `u64::saturating_add`. */
  function SatAdd(a: U64, b: nat): U64 {
    if a + b <= U64_MAX then a + b else U64_MAX
  }

  /** `u32::saturating_add(1)`. */
  function SatInc(a: U32): U32 {
    if a < U32_MAX then a + 1 else U32_MAX
  }

  /** `u32::wrapping_add(1)`. */
  function WrapInc(a: U32): U32 {
    if a < U32_MAX then a + 1 else 0
  }

  /** How many numbers some bytes can spell. */
  function Pow256(n: nat): (p: nat)
    ensures p > 0
  {
    if n == 0 then 1 else 256 * Pow256(n - 1)
  }

  /** A number written as a multiple and a smaller rest has them as quotient
      and remainder. */
  lemma Quotient(n: nat, m: nat, q: nat, r: nat)
    requires r < m && n == m * q + r
    ensures n / m == q && n % m == r
  {
    var d, e := n / m, n % m;
    assert n == m * d + e;
    if d < q {
      Multiples(m, d, q - d);
    } else if q < d {
      Multiples(m, q, d - q);
    }
  }

  lemma Multiples(m: nat, a: nat, k: nat)
    requires k >= 1
    ensures m * (a + k) >= m * a + m
  {
    assert m * (a + k) == m * a + m * (k - 1) + m;
  }
}
