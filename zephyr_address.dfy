/**
 * Addressing in the Zephyr port: the eight 7-bit addresses selectable with the
 * three strap pins, built from the fixed prefix 1001.
 */
module ZephyrAddress {

  const PREFIX_ADDR: bv8 := 0x09
  const POSIT_PREFIX_ADDR: nat := 3
  const BUILD_PREFIX_ADDR: bv8 := PREFIX_ADDR << POSIT_PREFIX_ADDR

  /** `enum DS7505_addr`. */
  datatype Addr = Addr48 | Addr49 | Addr4A | Addr4B | Addr4C | Addr4D | Addr4E | Addr4F

  /** The value of each enumerator: the prefix OR-ed with the strap pins A2 A1 A0. */
  function AddrValue(a: Addr): (v: bv8)
    ensures v < 0x80 && v & 0xF8 == BUILD_PREFIX_ADDR
  {
    match a
    case Addr48 => BUILD_PREFIX_ADDR | 0x0
    case Addr49 => BUILD_PREFIX_ADDR | 0x1
    case Addr4A => BUILD_PREFIX_ADDR | 0x2
    case Addr4B => BUILD_PREFIX_ADDR | 0x3
    case Addr4C => BUILD_PREFIX_ADDR | 0x4
    case Addr4D => BUILD_PREFIX_ADDR | 0x5
    case Addr4E => BUILD_PREFIX_ADDR | 0x6
    case Addr4F => BUILD_PREFIX_ADDR | 0x7
  }

  /** The strap setting each enumerator names, as its position in the enumeration. */
  function Strap(a: Addr): nat
  {
    match a
    case Addr48 => 0
    case Addr49 => 1
    case Addr4A => 2
    case Addr4B => 3
    case Addr4C => 4
    case Addr4D => 5
    case Addr4E => 6
    case Addr4F => 7
  }

  lemma PrefixIs0x48()
    ensures BUILD_PREFIX_ADDR == 0x48
  {
  }

  /** Each address is 0x48 plus its strap setting, and its top bits are the prefix 1001. */
  lemma AddressShape(a: Addr)
    ensures Strap(a) < 8 && AddrValue(a) as int == 0x48 + Strap(a)
    ensures AddrValue(a) >> 3 == PREFIX_ADDR
  {
  }

  /** The eight addresses are pairwise distinct. */
  lemma AddressesDistinct(a: Addr, b: Addr)
    ensures AddrValue(a) == AddrValue(b) ==> a == b
  {
  }
}
