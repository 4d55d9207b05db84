/**
 * Addressing in the mbed port: the handle keeps the 7-bit device address
 * shifted left once, and the direction bit is OR-ed in per transfer.
 */
module MbedAddress {

  /** The default 7-bit address, with all three strap pins low. */
  const DS7505_I2C_ADDRESS: bv8 := 0x48
  const DIR_BIT_WRITE: bv8 := 0x00
  const DIR_BIT_READ: bv8 := 0x01

  /** `DS7505_READ_ADDR(addr)`. */
  function ReadAddr(addr: bv8): (a: bv8)
    ensures a & 0x01 == 0x01 && a & 0xFE == addr & 0xFE
  {
    addr | DIR_BIT_READ
  }

  /** `DS7505_WRITE_ADDR(addr)`. */
  function WriteAddr(addr: bv8): (a: bv8)
    ensures a == addr
  {
    addr | DIR_BIT_WRITE
  }

  /** `addr << 1` stored into the uint8_t field: the top bit of `addr` is lost and bit 0 is clear. */
  function ShiftedAddress(addr: bv8): (a: bv8)
    ensures a as int == (addr as int * 2) % 256
    ensures a & DIR_BIT_READ == 0
  {
    addr << 1
  }

  /** The read address is the write address with bit 0 set. */
  lemma ReadIsWritePlusDirection(addr: bv8)
    ensures ReadAddr(addr) == WriteAddr(addr) | 0x01
  {
  }

  /** For an address already shifted left, the two direction forms differ in bit 0 and nowhere else. */
  lemma DirectionBitOnly(addr: bv8)
    requires addr & 0x01 == 0
    ensures ReadAddr(addr) ^ WriteAddr(addr) == 0x01
    ensures ReadAddr(addr) != WriteAddr(addr)
  {
  }

  /** The default address goes on the wire as 0x90 for a write and 0x91 for a read. */
  lemma DefaultAddressOnWire()
    ensures ShiftedAddress(DS7505_I2C_ADDRESS) == 0x90
    ensures WriteAddr(ShiftedAddress(DS7505_I2C_ADDRESS)) == 0x90
    ensures ReadAddr(ShiftedAddress(DS7505_I2C_ADDRESS)) == 0x91
  {
  }
}
