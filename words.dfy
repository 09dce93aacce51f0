/** Fixed-width machine integers and the Rust casts between them.
    Dafny integers are unbounded, so each width is a newtype and every
    `as` conversion of the source that can change a value is written out. */
module Words {

  const TWO_POW_32: int := 0x1_0000_0000
  const TWO_POW_63: int := 0x8000_0000_0000_0000
  const TWO_POW_64: int := 0x1_0000_0000_0000_0000

  newtype u32 = x: int | 0 <= x < 0x1_0000_0000
  newtype u64 = x: int | 0 <= x < 0x1_0000_0000_0000_0000
  newtype i64 = x: int | -0x8000_0000_0000_0000 <= x < 0x8000_0000_0000_0000

  /** `x as i64`: the same 64 bits read as two's complement. */
  function AsI64(x: u64): (r: i64)
    ensures (r as int - x as int) % TWO_POW_64 == 0
    ensures r >= 0 <==> x as int < TWO_POW_63
  {
    if x as int < TWO_POW_63 then x as int as i64 else (x as int - TWO_POW_64) as i64
  }

  /** `x as u64` for an i64: the same 64 bits read as unsigned. */
  function AsU64(x: i64): (r: u64)
    ensures (r as int - x as int) % TWO_POW_64 == 0
    ensures x >= 0 ==> r as int == x as int
  {
    if x >= 0 then x as int as u64 else (x as int + TWO_POW_64) as u64
  }

  /** `x as u32` for a u64: keeps the low 32 bits. */
  function TruncateU32(x: u64): (r: u32)
    ensures (r as int - x as int) % TWO_POW_32 == 0
    ensures x as int < TWO_POW_32 ==> r as int == x as int
  {
    (x as int % TWO_POW_32) as u32
  }

  /** `x as u64` for a u32: zero extension. */
  function WidenU32(x: u32): (r: u64)
    ensures r as int == x as int
  {
    x as int as u64
  }

  /** Reinterpreting a register as signed and back loses nothing, in both directions. */
  lemma ReinterpretRoundTrip(x: u64, y: i64)
    ensures AsU64(AsI64(x)) == x
    ensures AsI64(AsU64(y)) == y
  {
  }

  /** Only the all-zero register reads as signed zero. */
  lemma AsI64ZeroIff(x: u64)
    ensures AsI64(x) == 0 <==> x == 0
  {
  }

  /** Zero extension followed by truncation is the identity on u32. */
  lemma WidenTruncate(x: u32)
    ensures TruncateU32(WidenU32(x)) == x
  {
  }
}
