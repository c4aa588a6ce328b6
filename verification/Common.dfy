/** Small shared vocabulary: optional values, 256-bit bounds and word-sized saturation. */
module Common {
  datatype Option<+T> = None | Some(value: T)

  const WORD := 0x1_0000_0000_0000_0000_0000_0000_0000_0000_0000_0000_0000_0000_0000_0000_0000_0000
  const HALF_WORD := 0x1_0000_0000_0000_0000_0000_0000_0000_0000
  const U64 := 0x1_0000_0000_0000_0000
  const U32 := 0x1_0000_0000
  const BPS := 10_000

  type Hash = nat
  type Address = nat

  function Min(a: nat, b: nat): nat {
    if a <= b then a else b
  }

  function Max(a: nat, b: nat): nat {
    if a <= b then b else a
  }

  /** Subtraction that stops at zero. */
  function Monus(a: nat, b: nat): nat {
    if a >= b then a - b else 0
  }

  /** Addition that stops at `limit - 1`. */
  function SatAdd(a: nat, b: nat, limit: nat): nat
    requires limit > 0
  {
    Min(a + b, limit - 1)
  }

  /** 256-bit checked arithmetic. */
  function CheckedAdd(a: nat, b: nat): Option<nat> {
    if a + b < WORD then Some(a + b) else None
  }

  function CheckedSub(a: nat, b: nat): Option<nat> {
    if a >= b then Some(a - b) else None
  }
}
