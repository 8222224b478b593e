// Bounded and unbounded arithmetic shared by the stores.
module Numbers {
  const U32_MAX: nat := 0xFFFF_FFFF

  /** `u32::saturating_add` of one. */
  function SaturatingSucc(n: nat): nat { if n >= U32_MAX then U32_MAX else n + 1 }

  function Min(a: nat, b: nat): nat { if a < b then a else b }

  function Max(a: nat, b: nat): nat { if a < b then b else a }
}
