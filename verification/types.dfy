/** Machine integer widths used by the crate and its C engine, and the
    two's-complement casts (`as i64`, `as i32`, `transmute::<i8, u8>`) the
    Rust code performs between them. Dafny integers are unbounded, so every
    width and every wrap-around is written out here. */
module Types {

  const TWO_8: int := 0x100
  const TWO_32: int := 0x1_0000_0000
  const TWO_64: int := 0x1_0000_0000_0000_0000

  type byte = x: int | 0 <= x < 0x100
  type i8 = x: int | -0x80 <= x < 0x80
  type i32 = x: int | -0x8000_0000 <= x < 0x8000_0000
  type u32 = x: int | 0 <= x < 0x1_0000_0000
  type i64 = x: int | -0x8000_0000_0000_0000 <= x < 0x8000_0000_0000_0000
  type u64 = x: int | 0 <= x < 0x1_0000_0000_0000_0000
  /** The crate targets 64-bit hosts: `usize` has the width of `u64`. */
  type usize = u64

  const I64_MAX: i64 := 0x7FFF_FFFF_FFFF_FFFF
  const I32_MAX: i32 := 0x7FFF_FFFF

  datatype Option<T> = None | Some(value: T) {
    /** `Option::unwrap_or` */
    function GetOr(default: T): (r: T)
      ensures Some? ==> r == value
      ensures None? ==> r == default
    {
      match this
      case Some(v) => v
      case None => default
    }
  }

  /** `x as i64` for an unsigned 64-bit `x`: the same bit pattern read as
      a signed number. */
  function AsI64(x: u64): (r: i64)
    ensures (x - r) % TWO_64 == 0
    ensures x <= I64_MAX ==> r == x
    ensures x > I64_MAX ==> r < 0
  {
    if x <= I64_MAX then x else x - TWO_64
  }

  /** `x as i32` for an unsigned 32-bit `x`. */
  function AsI32(x: u32): (r: i32)
    ensures (x - r) % TWO_32 == 0
    ensures x <= I32_MAX ==> r == x
    ensures x > I32_MAX ==> r < 0
  {
    if x <= I32_MAX then x else x - TWO_32
  }

  /** `x as u64` for a signed 64-bit `x` (the inverse reinterpretation). */
  function AsU64(x: i64): (r: u64)
    ensures (x - r) % TWO_64 == 0
    ensures x >= 0 ==> r == x
  {
    if x >= 0 then x else x + TWO_64
  }

  /** `mem::transmute::<i8, u8>`: the byte with the same bit pattern. */
  function AsU8(x: i8): (r: byte)
    ensures (x - r) % TWO_8 == 0
    ensures x >= 0 ==> r == x
  {
    if x >= 0 then x else x + TWO_8
  }

  /** Reinterpreting twice is the identity: `(x as i64) as u64 == x`. */
  lemma AsI64RoundTrip(x: u64)
    ensures AsU64(AsI64(x)) == x
  {
  }
}
