/** Unsigned 32-bit arithmetic, which wraps around. */
module Numbers {

  const UINT32_MOD: nat := 0x1_0000_0000

  type uint32 = x: nat | x < UINT32_MOD

  function AsUint32(x: int): (r: uint32)
    ensures 0 <= x < UINT32_MOD ==> r == x
    ensures UINT32_MOD <= x < 2 * UINT32_MOD ==> r == x - UINT32_MOD
    ensures 0 <= x + UINT32_MOD < UINT32_MOD ==> r == x + UINT32_MOD
  {
    x % UINT32_MOD
  }
}
