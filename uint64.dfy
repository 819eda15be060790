/** Go's `uint64`: values in [0, 2^64) whose subtraction wraps around modulo 2^64. */
module UInt64 {

  const MODULUS: int := 0x1_0000_0000_0000_0000

  type u64 = x: int | 0 <= x < MODULUS

  /** `a + b` on uint64. */
  function Add(a: u64, b: u64): (s: u64)
    ensures s == a + b || s == a + b - MODULUS
  {
    (a + b) % MODULUS
  }

  /** `a - b` on uint64: a counter that went backwards yields a large value, not zero. */
  function Sub(a: u64, b: u64): (d: u64)
    ensures Add(b, d) == a
  {
    (a - b) % MODULUS
  }

  /** Subtraction is exact when nothing wraps, and otherwise lands 2^64 above the true difference. */
  lemma SubCases(a: u64, b: u64)
    ensures b <= a ==> Sub(a, b) == a - b
    ensures a < b ==> Sub(a, b) == a - b + MODULUS && Sub(a, b) > 0
  {
  }

  /** Sub is the only inverse of adding `b`: any `d` with `b + d == a` (mod 2^64) is Sub(a, b). */
  lemma SubUnique(a: u64, b: u64, d: u64)
    requires Add(b, d) == a
    ensures d == Sub(a, b)
  {
  }
}
