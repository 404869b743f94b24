/** Machine integer widths used by the firmware, written out explicitly
    because Dafny integers are unbounded. */
module Units {

  /** `uint8_t` */
  type byte = x: int | 0 <= x < 0x100

  /** `uint16_t`: one mark or space duration in microseconds */
  type u16 = x: int | 0 <= x < 0x1_0000

  /** `int`, the width `String::toInt` results are stored in */
  type i32 = x: int | -0x8000_0000 <= x < 0x8000_0000

  /** `uint64_t`: millisecond timestamps and the off-timer deadline */
  type u64 = x: int | 0 <= x < 0x1_0000_0000_0000_0000

  datatype Option<T> = None | Some(value: T)

  const U64_MOD: int := 0x1_0000_0000_0000_0000

  /** 2^n; `(b >> i) & 1` on a non-negative value is `(b / Pow2(i)) % 2` */
  function Pow2(n: nat): (r: nat)
    ensures r > 0
    ensures n > 0 ==> r % 2 == 0
  {
    if n == 0 then 1 else 2 * Pow2(n - 1)
  }
}
