/** Fixed-width unsigned integers of the firmware's target (the RP2040, a
    32-bit ARM core) and the wrap-around arithmetic that C++'s integer
    promotions and conversions give them. */
module Words {

  const TWO_16: int := 0x1_0000
  const TWO_64: int := 0x1_0000_0000_0000_0000

  /** uint16_t */
  newtype u16 = x: int | 0 <= x < 0x1_0000
  /** uint32_t, and `unsigned long`, which is 32 bits wide on the target */
  newtype u32 = x: int | 0 <= x < 0x1_0000_0000
  /** uint64_t */
  newtype u64 = x: int | 0 <= x < 0x1_0000_0000_0000_0000

  /** `x++` on a uint16_t: the sum is computed in `int` and converted back,
      so 0xFFFF steps to 0. */
  function Inc16(x: u16): (r: u16)
    ensures r as int == (x as int + 1) % TWO_16
    ensures x < 0xFFFF ==> r as int == x as int + 1
  {
    if x == 0xFFFF then 0 else x + 1
  }

  /** `x++` on a uint64_t, wrapping at 2^64. */
  function Inc64(x: u64): (r: u64)
    ensures r as int == (x as int + 1) % TWO_64
    ensures x as int < TWO_64 - 1 ==> r as int == x as int + 1
  {
    if x as int == TWO_64 - 1 then 0 else x + 1
  }

  /** `a += b` with a uint64_t `a` and a uint32_t `b`: `b` is widened and
      the sum wraps at 2^64. */
  function Add64(a: u64, b: u32): (r: u64)
    ensures r as int == (a as int + b as int) % TWO_64
    ensures a as int + b as int < TWO_64 ==> r as int == a as int + b as int
    ensures a as int + b as int >= TWO_64 ==> r as int == a as int + b as int - TWO_64
  {
    var sum := a as int + b as int;
    if sum < TWO_64 then sum as u64 else (sum - TWO_64) as u64
  }

  /** `std::min` on two uint16_t values. */
  function Min16(a: u16, b: u16): (r: u16)
    ensures r <= a && r <= b
    ensures r == a || r == b
  {
    if b < a then b else a
  }

  /** Adding to a wrapped uint16_t sum is adding to the unwrapped one. */
  lemma Wrap16Add(a: int, c: int)
    requires 0 <= a <= TWO_16
    ensures (a % TWO_16 + c) % TWO_16 == (a + c) % TWO_16
  {
  }

  /** Adding to a wrapped uint64_t sum is adding to the unwrapped one. */
  lemma Wrap64Add(a: int, c: int)
    requires 0 <= a < 2 * TWO_64
    ensures (a % TWO_64 + c) % TWO_64 == (a + c) % TWO_64
  {
  }
}
