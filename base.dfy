/** Machine words, wrapping arithmetic and the small sequence searches that the
    compiler, the virtual machine and the parser share. */
module Base {

  /** 2^32: the number of distinct 32-bit words. */
  const WORD_MODULUS: int := 0x1_0000_0000

  /** Rust's `u32`. */
  type u32 = n: int | 0 <= n < 0x1_0000_0000

  /** `u32::MAX`, the sentinel used for "no caller" and "no value". */
  const U32_MAX: u32 := 0xFFFF_FFFF

  datatype Option<+T> = None | Some(value: T)

  datatype Result<+T, +E> = Ok(value: T) | Err(error: E)

  /** The cast `n as u32` of a non-negative machine-size integer: keeps the low 32 bits. */
  function Truncate(n: nat): (r: u32)
    ensures n < WORD_MODULUS ==> r == n
    ensures (n - r) % WORD_MODULUS == 0
  {
    n % WORD_MODULUS
  }

  /** `a.wrapping_add(b)`. */
  function WrappingAdd(a: u32, b: u32): (r: u32)
    ensures a + b < WORD_MODULUS ==> r == a + b
    ensures a + b >= WORD_MODULUS ==> r == a + b - WORD_MODULUS
  {
    (a + b) % WORD_MODULUS
  }

  /** `a.wrapping_sub(b)`. */
  function WrappingSub(a: u32, b: u32): (r: u32)
    ensures b <= a ==> r == a - b
    ensures a < b ==> r == a - b + WORD_MODULUS
  {
    (a - b) % WORD_MODULUS
  }

  /** `a.wrapping_mul(b)`. */
  function WrappingMul(a: u32, b: u32): (r: u32)
    ensures a * b < WORD_MODULUS ==> r == a * b
    ensures (a * b - r) % WORD_MODULUS == 0
  {
    Truncate(a * b)
  }

  /** `a / b` on unsigned operands with `b != 0`: the truncating quotient. */
  function Quotient(a: u32, b: u32): (q: u32)
    requires b != 0
    ensures q * b <= a < q * b + b
  {
    a / b
  }

  /** `a % b` on unsigned operands with `b != 0`: the remainder of the truncating division. */
  function Remainder(a: u32, b: u32): (m: u32)
    requires b != 0
    ensures m < b && m == a - Quotient(a, b) * b
  {
    a % b
  }

  /** Decrementing with wrap-around and then incrementing with wrap-around is the identity;
      this is what lets a jump to `loc` store `loc - 1` in the program counter. */
  lemma WrappingSubAddOne(x: u32)
    ensures WrappingAdd(WrappingSub(x, 1), 1) == x
  {
  }

  /** `s.iter().position(|y| y == x)`: the index of the first occurrence of `x`. */
  function FirstIndex<T(==)>(s: seq<T>, x: T): (r: Option<nat>)
    ensures r.None? <==> x !in s
    ensures r.Some? ==> r.value < |s| && s[r.value] == x
    ensures r.Some? ==> forall j :: 0 <= j < r.value ==> s[j] != x
  {
    if s == [] then None
    else if s[0] == x then Some(0)
    else match FirstIndex(s[1..], x)
      case None => None
      case Some(k) => Some(k + 1)
  }

  /** `s.iter().rev().position(|y| y == x)`: the distance from the end of `s` to the last
      occurrence of `x` (0 when `x` is the last element). */
  function LastDistance<T(==)>(s: seq<T>, x: T): (r: Option<nat>)
    ensures r.None? <==> x !in s
    ensures r.Some? ==> r.value < |s| && s[|s| - 1 - r.value] == x
    ensures r.Some? ==> forall j :: |s| - r.value <= j < |s| ==> s[j] != x
  {
    if s == [] then None
    else if s[|s| - 1] == x then Some(0)
    else match LastDistance(s[..|s| - 1], x)
      case None => None
      case Some(k) => Some(k + 1)
  }
}
