/** Fixed-width unsigned integers, and the two readings of the engine's arithmetic. */
module Words {

  type u8 = x: int | 0 <= x < 0x100
  type u16 = x: int | 0 <= x < 0x1_0000
  type u32 = x: int | 0 <= x < 0x1_0000_0000
  type u64 = x: int | 0 <= x < 0x1_0000_0000_0000_0000

  const TWO32: int := 0x1_0000_0000
  const TWO64: int := 0x1_0000_0000_0000_0000

  datatype Option<+T> = None | Some(value: T)

  /** `Machine` wraps every unsigned result the way the hardware does; `Exact` never wraps. */
  datatype Arith = Exact | Machine

  function Wrap32(a: Arith, x: int): int {
    if a.Machine? then x % TWO32 else x
  }

  function Wrap64(a: Arith, x: int): int {
    if a.Machine? then x % TWO64 else x
  }

  lemma {:induction false} PositiveMultiple(d: nat, k: nat)
    requires d > 0
    ensures d * k >= k
  {
  }
}
