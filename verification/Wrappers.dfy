/** Optional values, results and machine integers, as the Rust code uses them. */
module Wrappers {
  datatype Option<+T> = None | Some(value: T)

  datatype Result<+T, +E> = Success(value: T) | Failure(error: E) {
    predicate IsFailure() {
      Failure?
    }

    function PropagateFailure<U>(): Result<U, E>
      requires Failure?
    {
      Failure(error)
    }

    function Extract(): T
      requires Success?
    {
      value
    }
  }

  /** How a state and a result reflect a specified outcome: the new state on success, nothing changed on error. */
  ghost predicate Reflects<S, T, E>(before: S, outcome: Result<S, E>, after: S, r: Result<T, E>) {
    match outcome
    case Success(s1) => r.Success? && after == s1
    case Failure(e) => r.Failure? && r.error == e && after == before
  }

  const U32_MODULUS := 0x1_0000_0000
  const U32_MAX := U32_MODULUS - 1

  type u32 = n: int | 0 <= n < 0x1_0000_0000

  /** Reduction modulo 2^32: `u32` sums in a build without overflow checks. */
  function Wrap(n: nat): u32 {
    n % U32_MODULUS
  }

  lemma WrapStep(a: nat, b: nat)
    ensures Wrap(Wrap(a) + b) == Wrap(a + b)
  {
  }

  /** `u32::saturating_add(1)`. */
  function SaturatingIncrement(n: u32): u32 {
    if n == U32_MAX then n else n + 1
  }

  /** `u32::saturating_sub(1)`. */
  function SaturatingDecrement(n: u32): u32 {
    if n == 0 then 0 else n - 1
  }
}
