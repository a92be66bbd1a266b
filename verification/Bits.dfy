// Single bits of a run of bytes, as core/src/fdi2raw.c numbers them.
module Bits {
  // Bits are taken from the top of a byte down.
  function Mask(k: nat): (m: bv8)
    requires k < 8
  {
    if k == 0 then 0x80 else if k == 1 then 0x40 else if k == 2 then 0x20 else if k == 3 then 0x10
    else if k == 4 then 0x08 else if k == 5 then 0x04 else if k == 6 then 0x02 else 0x01
  }

  predicate Bit(bytes: seq<bv8>, p: nat)
    requires p < 8 * |bytes|
  {
    bytes[p / 8] & Mask(p % 8) != 0
  }
}
