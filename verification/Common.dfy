/** Values shared by every component: optional values, results, checked 64-bit arithmetic, and the sizes of sets. */
module Common {

  datatype Option<+T> = None | Some(value: T)

  datatype Result<+T, +E> = Ok(value: T) | Err(error: E)

  const I64_MAX: int := 0x7fff_ffff_ffff_ffff
  const I64_MIN: int := -0x8000_0000_0000_0000

  /** A signed 64-bit integer. */
  type I64 = n: int | I64_MIN <= n <= I64_MAX

  /** `checked_add`, `checked_sub` and `checked_mul`: no value when the exact result leaves the type. */
  function Checked(n: int): Option<I64> {
    if I64_MIN <= n <= I64_MAX then Some(n) else None
  }

  /** `saturating_add`, `saturating_sub` and `saturating_mul`. */
  function Saturated(n: int): I64 {
    if n < I64_MIN then I64_MIN else if n > I64_MAX then I64_MAX else n
  }

  function Min(a: int, b: int): int { if a <= b then a else b }

  function Max(a: int, b: int): int { if a >= b then a else b }

  lemma SubsetSize<T>(a: set<T>, b: set<T>)
    requires a <= b
    ensures |a| <= |b|
  {
    assert b == a + (b - a);
  }
}
