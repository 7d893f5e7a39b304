/** Go's machine integers as the scheduler cache uses them, and an optional value. */
module GoTypes {

  /** 2^64: the modulus of Go's `uint` arithmetic on a 64-bit platform. */
  const UINT64_MODULUS: int := 0x1_0000_0000_0000_0000
  const INT64_MAX: int := 0x7FFF_FFFF_FFFF_FFFF
  const INT64_MIN: int := -0x8000_0000_0000_0000

  /** Go's `uint`. */
  type u64 = x: int | 0 <= x < 0x1_0000_0000_0000_0000

  /** A non-negative Go `int`: resource quantities read from node and pod objects. */
  type GoNat = x: int | 0 <= x <= 0x7FFF_FFFF_FFFF_FFFF

  /** `a + b` on Go `uint`s: wraps around at 2^64. */
  function AddU64(a: u64, b: u64): (r: u64)
    ensures a + b < UINT64_MODULUS ==> r == a + b
    ensures UINT64_MODULUS <= a + b ==> r == a + b - UINT64_MODULUS
  {
    (a + b) % UINT64_MODULUS
  }

  /** `a - b` on Go `uint`s: wraps around below zero. */
  function SubU64(a: u64, b: u64): (r: u64)
    ensures AddU64(r, b) == a
    ensures b <= a ==> r == a - b
  {
    if b <= a then a - b else a - b + UINT64_MODULUS
  }

  datatype Option<+T> = None | Some(value: T)

  function Min(a: int, b: int): int { if a <= b then a else b }

  /**
   * Some element of a non-empty set: the key a Go `range` over a map visits
   * next, in an order the program does not rely on.
   */
  method AnyKey<T>(s: set<T>) returns (k: T)
    requires s != {}
    ensures k in s
  {
    k :| k in s;
  }
}
