/** Shared vocabulary: optional values and the fixed-width integer behaviour of the
    Rust source (a release build on a 64-bit target: `as` casts and arithmetic wrap). */
module Base {

  /** `Option<T>`: used for registry lookups and for the iterator's `next`. */
  datatype Option<+T> = None | Some(value: T)

  const U32_MODULUS: nat := 0x1_0000_0000
  const I32_MAX: int := 0x7fff_ffff
  const I32_MIN: int := -0x8000_0000

  /** `usize::MAX` on a 64-bit target. */
  const USIZE_MAX: nat := 0xffff_ffff_ffff_ffff

  /** `n as u32` for an unsigned `n`: the low 32 bits. */
  function AsU32(n: nat): (r: nat)
    ensures r < U32_MODULUS
    ensures n < U32_MODULUS ==> r == n
    ensures (n - r) % U32_MODULUS == 0
  {
    n % U32_MODULUS
  }

  /** Two's-complement wrap into i32: `x as i32`, or a wrapping i32 `+` / `*`. */
  function WrapI32(x: int): (r: int)
    ensures I32_MIN <= r <= I32_MAX
    ensures I32_MIN <= x <= I32_MAX ==> r == x
    ensures (x - r) % U32_MODULUS == 0
  {
    var m := x % U32_MODULUS;
    if m > I32_MAX then m - U32_MODULUS else m
  }

  /** `f as i32` for a float: truncation toward zero, saturating at the i32 bounds. */
  function TruncToI32(x: real): (r: int)
    ensures I32_MIN <= r <= I32_MAX
    ensures x >= 0.0 ==> 0 <= r && r as real <= x
    ensures x < 0.0 ==> r <= 0 && x <= r as real
    ensures 0.0 <= x < I32_MAX as real ==> x < r as real + 1.0
    ensures I32_MIN as real < x < 0.0 ==> r as real < x + 1.0
    ensures x >= I32_MAX as real ==> r == I32_MAX
    ensures x <= I32_MIN as real ==> r == I32_MIN
  {
    var t := if x >= 0.0 then x.Floor else -((-x).Floor);
    if t > I32_MAX then I32_MAX else if t < I32_MIN then I32_MIN else t
  }
}
