# DS7505 driver model

A Dafny model of the two ports of the DS7505 digital thermometer and thermostat
driver. One port is the mbed C++ class `DS7505`, the other the Zephyr C driver around
`struct ds7505_t`. Both talk to the sensor over I2C. They select a register by
writing a pointer byte, read one or two bytes back, and write framed data. Each keeps
a cache of the configuration byte and of the three temperatures.

Layout:

- `registers.dfy` (`Registers`): the register pointers, configuration fields,
  flag bits and command opcodes. Both headers declare these with identical values.
- `codec.dfy` (`Codec`): the temperature format, which is a signed 16-bit count of
  1/256 °C sent high byte first. Also the packing of the configuration byte, the
  shutdown read-modify-write, the memory-busy test, and the threshold frame.
- `bus.dfy` (`I2C`): the transport, a bus whose every transfer may succeed or fail
  and whose reads may return any bytes. Every transfer is logged with its status.
- `handle.dfy` (`Handle`): the register cache and the rules for how an
  operation's transfers change it and decide its return code.
- `mbed_address.dfy`, `zephyr_address.dfy`: how each port forms the bus address.
- `mbed_driver.dfy` (`MbedDriver`): class `DS7505` with its fields and methods.
- `zephyr_driver.dfy` (`ZephyrDriver`): class `Ds7505` stands for the struct. Each
  C function is a method that takes the struct.

Each driver method states exactly which transfers it issued and what it did with
each answer. It does so through the new suffix of the bus log and a predicate over
it, such as `ConfigRead` or `TemperatureRead`. The method also states the new cache
as a function of the old cache and of the bytes the bus returned. Lemmas beside the
predicates state the promised outcomes:

- success exactly when every step succeeded;
- no further transfer after a failure;
- cache untouched on failure;
- only the selected field changes.

Three defects of the code are modelled as written. Each appears under
"## Findings" with the as-written behaviour exhibited and a corrected definition
proved. Two of them are where the Zephyr port diverges from the mbed port:

- The threshold write assigns the pointer to the wrong buffer element, so the
  first byte sent is never set (zephyr/ds7505.c:35-36).
- The configuration write tests the write status the wrong way round, so an
  acknowledged write reports ERROR (zephyr/ds7505.c:104). The mbed port
  returns the result of the read-back after a successful write
  (mbed/DS7505.cpp:46-49).

The third is shared by both ports. The cache fields hold degrees Celsius: a
register read stores the raw count divided by 256 (mbed/DS7505.cpp:147-153), and
the usage example in mbed/DS7505.h:44-56 prints `temp_os` as degrees Celsius. A
threshold write nevertheless stores the raw count itself, 256 times that value
(mbed/DS7505.cpp:169-173, zephyr/ds7505.c:41-45).

The ports also differ where neither is wrong, and each is modelled as its code
does it:

- The mbed port writes a single configuration byte with length 2, so a third
  byte goes on the wire (mbed/DS7505.cpp:46, 132). The Zephyr port sends exactly
  two bytes (zephyr/ds7505.c:67-74, 101-104). See "## Left out".
- The mbed port stores `addr << 1` and ORs in the direction bit per transfer
  (mbed/DS7505.cpp:6, mbed/DS7505.h:145-146). The Zephyr port passes the 7-bit
  enumerator value to the bus (zephyr/ds7505.c:13). `MbedAddress` and
  `ZephyrAddress` model the two schemes.
- The mbed constructors zero the cache (mbed/DS7505.cpp:7-10). The Zephyr struct
  is set up by the application, which leaves the cache uninitialised
  (zephyr/main.c:76-78).

## Model

| member | source | states |
|---|---|---|
| Registers.Pointer | mbed/DS7505.h:151-156 | every register pointer is one of 0x00-0x03 |
| Registers.ResolutionBits | mbed/DS7505.h:163-168 | each resolution value lies in bits 6-5 only |
| Registers.FaultToleranceBits | mbed/DS7505.h:170-175 | each fault-tolerance value lies in bits 4-3 only |
| Registers.PolarityBits | mbed/DS7505.h:177-180 | polarity uses bit 2 only |
| Registers.ModeBits | mbed/DS7505.h:182-185 | thermostat mode uses bit 1 only |
| Registers.ShutdownBits | mbed/DS7505.h:187-190 | the power mode uses bit 0 only |
| Registers.FlagBits | mbed/DS7505.h:158-161 | WRITE_IN_PROGRESS is exactly 0x80, MEM_NOT_BUSY 0, SHUTDOWN exactly 0x01 |
| Registers.FieldsDisjoint | zephyr/ds7505.h:34-55 | the four configurable fields are pairwise disjoint, and any OR of one value from each leaves bits 0 and 7 clear |
| Registers.FieldEncodingsInjective | mbed/DS7505.h:163-185 | distinct field values have distinct bit patterns |
| Registers.OpcodesDistinct | mbed/DS7505.h:192-196 | the opcodes 0xB8, 0x48 and 0x54 differ from each other |
| Registers.Opcode | mbed/DS7505.h:192-196 | no command byte equals a register pointer |
| Registers.PointersDistinct | zephyr/ds7505.h:30 | the four register pointers are distinct |
| Codec.Signed16 | mbed/DS7505.cpp:144 | the int16_t conversion yields a value in the int16 range equal to the input or the input minus 2^16 |
| Codec.DecodeRaw | zephyr/ds7505.c:15 | the decoded count is an int16, negative exactly when the high byte's top bit is set |
| Codec.DecodeCelsius | mbed/DS7505.cpp:144-145 | the reading is in [-128, 128) and is the raw count divided by 256 |
| Codec.Trunc | mbed/DS7505.cpp:163 | float-to-integer conversion rounds toward zero, landing within 1 below a positive value or 1 above a negative one |
| Codec.RawOf | mbed/DS7505.cpp:163 | `temp * 256` converted to an integer rounds toward zero: at most 1 below a non-negative product, at most 1 above a negative one |
| Codec.Unsigned16 | zephyr/ds7505.c:36-37 | the bit pattern of an int16 read as unsigned lies in 0..65535 |
| Codec.HiByte | mbed/DS7505.cpp:165 | the high byte times 256 plus the low byte is the count's 16-bit pattern, and its top bit is set iff the count is negative |
| Codec.LoByte | mbed/DS7505.cpp:166 | the low byte is the count modulo 256, for negative counts too |
| Codec.DecodeEncode | mbed/DS7505.cpp:163-166 | splitting a raw count into high and low byte and decoding them gives the count back |
| Codec.EncodeDecode | mbed/DS7505.cpp:144 | decoding two bytes and splitting the count again gives the same two bytes |
| Codec.CelsiusRoundTrip | zephyr/ds7505.c:15-16 | encoding a decoded reading gives back its raw count and its two bytes |
| Codec.EncodeWithinResolution | zephyr/ds7505.c:33-37 | encode then decode loses less than 1/256 °C, toward zero, and is exact on multiples of 1/256 |
| Codec.DecodeExamples | mbed/DS7505.cpp:144-145 | [0x1C,0x00] is 28.0, [0x00,0x80] is 0.5, [0xFF,0x80] is -0.5, [0x80,0x00] is -128.0 |
| Codec.EncodeExample | mbed/DS7505.cpp:163-166 | 29.0 becomes 0x1D00 and the bytes 0x1D, 0x00; -0.5 becomes -128 and the bytes 0xFF, 0x80 |
| Codec.PackConfig | mbed/DS7505.cpp:45 | the packed configuration byte has the busy bit 7 and the shutdown bit 0 clear |
| Codec.UnpackPack | zephyr/ds7505.c:103 | each field of the packed byte reads back as the value packed |
| Codec.PackUnpack | zephyr/ds7505.c:103 | every byte with bits 0 and 7 clear is the packing of the fields it holds |
| Codec.DefaultConfigIsZero | mbed/DS7505.h:213-216 | the default arguments of setConfigReg compose to 0x00 |
| Codec.Bits12InterruptIs0x62 | zephyr/ds7505.h:34-53 | BITS_12 with INTERRUPT and the other fields at zero composes to 0x62 |
| Codec.WithShutdown | mbed/DS7505.cpp:127-131 | the byte written keeps bits 7-1 of the byte read and holds the requested mode in bit 0 |
| Codec.ShutdownExample | zephyr/ds7505.c:69-73 | 0x62 shuts down to 0x63 and wakes back to 0x62 |
| Codec.ShutdownLastWins | mbed/DS7505.cpp:124-137 | changing the mode twice equals changing it once to the second mode, and the bit reads as the mode written |
| Codec.ShutdownRestores | zephyr/ds7505.c:64-80 | setting the mode a byte already holds leaves it unchanged, so switching back restores the byte |
| Codec.IsMemoryBusy | mbed/DS7505.cpp:107-108 | the busy test holds iff bit 7 of the configuration byte is set |
| Codec.MemoryBusyBit | mbed/DS7505.cpp:105-113 | a packed configuration is never busy, and the power-mode change keeps the busy bit |
| Codec.ThresholdFrame | mbed/DS7505.cpp:160-168 | the threshold frame is three bytes, starts with the register pointer, and its data bytes decode to the raw count |
| Codec.ThresholdFrameExample | mbed/DS7505.cpp:160-168 | writing 29.0 to T_OS sends [0x03, 0x1D, 0x00] |
| I2C.Bus.Write | zephyr/ds7505.c:13 | a write appends exactly one logged transfer with its address, bytes and status |
| I2C.Bus.Read | zephyr/ds7505.c:14 | a read returns the requested number of bytes and appends exactly one logged transfer |
| I2C.RegisterRead | mbed/DS7505.cpp:32-33 | a register read is one or two transfers: a write of the pointer to the write address first, and a successful read is a read from the read address that delivered the requested number of bytes |
| Handle.ReadResult | mbed/DS7505.cpp:35-38 | the return code of a register read is SUCCESS or ERROR, and SUCCESS only when the read happened and returned 0 |
| Handle.Code | mbed/DS7505.cpp:179-191 | a transport status becomes SUCCESS exactly when it is 0, and ERROR otherwise |
| Handle.ConfigRead | zephyr/ds7505.c:51-62 | a configuration read is one or two transfers and changes no cache field except `config` |
| Handle.TemperatureRead | zephyr/ds7505.c:7-28 | a register read is one or two transfers and never changes `config` |
| Handle.TemperatureReadOutcome | zephyr/ds7505.c:7-28 | a register read succeeds iff both transfers did; no read after a failed pointer write; cache untouched on failure; on success only the field the pointer selects changes, to the decoded value |
| Handle.ConfigReadOutcome | zephyr/ds7505.c:51-62 | a configuration read succeeds iff both transfers did; on success only `config` changes, to the byte read; otherwise nothing changes |
| Handle.PointerWriteFailed | zephyr/ds7505.c:13 | a refused pointer write alone is a whole register read: nothing is read and the result is ERROR |
| Handle.TemperatureReadSteps | zephyr/ds7505.c:13-24 | an acknowledged pointer write, a two-byte read and a cache updated only if that read returned 0 make up a whole register read whose result is the read's status |
| Handle.ConfigReadSteps | zephyr/ds7505.c:55-58 | an acknowledged pointer write, a one-byte read and `config` updated only if that read returned 0 make up a whole configuration read whose result is the read's status |
| Handle.StoreReading | mbed/DS7505.cpp:147-153 | TEMPER stores the reading in `temperature`, T_OS in `temp_os`, any other pointer in `temp_hyst`; every other field keeps its value |
| Handle.StoreThreshold | mbed/DS7505.cpp:169-173 | T_OS stores the raw count in `temp_os`, any other pointer in `temp_hyst`; `config`, `temperature` and the other threshold keep their values |
| Handle.ThresholdCacheUnits | mbed/DS7505.cpp:168-176 | as written, the cache after a threshold write differs from a read-back of the same bytes: 29.0 caches 7424.0 where a read caches 29.0 |
| Handle.ThresholdCacheMatchesReadBack | zephyr/ds7505.c:41-45 | the corrected update in °C equals what reading the written bytes back stores |
| Handle.StoreThresholdCelsius | zephyr/ds7505.c:41-45 | the corrected update: the selected threshold times 256 is the raw count, and every other field keeps its value |
| Handle.ConfigWriteResult | mbed/DS7505.cpp:46-49 | a failed write reports ERROR; the result is SUCCESS exactly when the write and the read-back both succeeded |
| Handle.ConfigWriteResultSucceeds | mbed/DS7505.cpp:46-49 | a configuration write whose read-back reports SUCCESS or ERROR reports SUCCESS or ERROR itself |
| MbedAddress.ShiftedAddress | mbed/DS7505.cpp:6 | the stored address is the 7-bit address times two modulo 256, with bit 0 clear |
| MbedAddress.ReadAddr | mbed/DS7505.h:145 | `DS7505_READ_ADDR` sets bit 0 and keeps bits 7-1 of the stored address; ReadIsWritePlusDirection ties it to the write form |
| MbedAddress.WriteAddr | mbed/DS7505.h:146 | `DS7505_WRITE_ADDR` leaves the stored address unchanged |
| MbedAddress.ReadIsWritePlusDirection | mbed/DS7505.h:145-146 | WRITE_ADDR(a) is a, and READ_ADDR(a) is WRITE_ADDR(a) with bit 0 set |
| MbedAddress.DirectionBitOnly | mbed/DS7505.h:139-146 | for a shifted address the two forms differ in bit 0 and nowhere else |
| MbedAddress.DefaultAddressOnWire | mbed/DS7505.h:138 | the default address 0x48 goes on the wire as 0x90 to write and 0x91 to read |
| MbedDriver.ConfigByteWrite | mbed/DS7505.cpp:46 | a write of one configuration byte with length 2 is three bytes on the wire: CONFIG, the byte, and one unspecified byte |
| MbedDriver.ConfigWrite | mbed/DS7505.cpp:41-50 | setConfigReg makes one to three transfers, changes no cache field but `config`, and reports SUCCESS only after an acknowledged write |
| MbedDriver.PowerModeWrite | mbed/DS7505.cpp:124-137 | shutMode makes one to three transfers, changes no cache field but `config`, and reports SUCCESS or ERROR |
| MbedDriver.ThresholdWrite | mbed/DS7505.cpp:160-177 | setTOSorHYST is one transfer, reports SUCCESS iff it was acknowledged, and leaves `config` and `temperature` alone |
| ZephyrAddress.PrefixIs0x48 | zephyr/ds7505.h:9-11 | BUILD_PREFIX_ADDR is 0x09 << 3 = 0x48 |
| ZephyrAddress.AddrValue | zephyr/ds7505.h:19-28 | every enumerator is a 7-bit address whose bits 6-3 are the prefix 1001; AddressShape gives its exact value |
| ZephyrAddress.AddressShape | zephyr/ds7505.h:19-28 | each ADDR_4n is 0x48 plus its strap setting 0..7, and shifting it right by 3 gives the prefix 1001 |
| ZephyrAddress.AddressesDistinct | zephyr/ds7505.h:19-28 | the eight addresses are pairwise distinct |
| MbedDriver.ConfigWriteOutcome | mbed/DS7505.cpp:41-50 | setConfigReg succeeds iff the write, the pointer write and the read all succeeded, and the cache then holds the byte read; after a failed write nothing is read and nothing changes |
| MbedDriver.PowerModeOutcome | mbed/DS7505.cpp:124-137 | shutMode succeeds iff the read and the write both succeeded; the byte written keeps the byte read apart from bit 0, which holds the mode; a failed read writes nothing |
| MbedDriver.PowerModeAfterRead | mbed/DS7505.cpp:125-134 | a successful configuration read followed by the write of CONFIG and the modified byte makes up a whole shutMode whose result is that write's |
| MbedDriver.PowerModeReadFailed | mbed/DS7505.cpp:124-137 | a failed configuration read alone makes up a whole shutMode that reports ERROR |
| MbedDriver.ShutdownByte | mbed/DS7505.cpp:126-131 | the new byte is the byte read with bit 0 cleared for ACTIVE_CONVER and set for SHUTDOWN, bits 7-1 kept |
| MbedDriver.ThresholdWriteSteps | mbed/DS7505.cpp:160-176 | one write of the pointer and the two data bytes, with the cache updated only if it was acknowledged, makes up a whole setTOSorHYST whose result is that write's |
| MbedDriver.Frame | mbed/DS7505.cpp:193-199 | the frame has len+1 bytes, the pointer first, then the first len data bytes in order |
| MbedDriver.DS7505.OwnBus | mbed/DS7505.cpp:3-11 | the owning constructor makes a fresh bus, stores addr << 1 and zeroes the cache |
| MbedDriver.DS7505.constructor | mbed/DS7505.cpp:13-21 | the borrowing constructor keeps the given bus, stores addr << 1 and zeroes the cache |
| MbedDriver.DS7505.ReadBytes | mbed/DS7505.cpp:179-184 | one read of `length` bytes from READ_ADDR; the result is 0 iff the bus returned 0 |
| MbedDriver.DS7505.WriteByte | mbed/DS7505.cpp:186-191 | one one-byte write to WRITE_ADDR; the result is 0 iff the bus returned 0 |
| MbedDriver.DS7505.WriteData | mbed/DS7505.cpp:193-204 | one write of the pointer followed by the first len data bytes |
| MbedDriver.DS7505.GetConfigReg | mbed/DS7505.cpp:30-39 | pointer CONFIG, then one byte read only if that succeeded; `config` updated only when both succeeded |
| MbedDriver.DS7505.SetConfigReg | mbed/DS7505.cpp:41-50 | the frame starts CONFIG, packed byte; the read-back runs only after a successful write and its result is returned; the third byte is unspecified |
| MbedDriver.DS7505.GetTemperatureReg | mbed/DS7505.cpp:138-158 | pointer write, then a two-byte read only if it succeeded; the decoded value goes to the selected field only on success |
| MbedDriver.DS7505.GetTemp | mbed/DS7505.cpp:52-57 | a register read of TEMPER |
| MbedDriver.DS7505.GetTempOS | mbed/DS7505.cpp:59-64 | a register read of T_OS |
| MbedDriver.DS7505.GetTempHYST | mbed/DS7505.cpp:66-71 | a register read of T_HYST |
| MbedDriver.DS7505.SetTOSorHYST | mbed/DS7505.cpp:160-177 | one write of pointer, high byte, low byte of the truncated count; on success the raw count is cached in temp_os for T_OS, else temp_hyst |
| MbedDriver.DS7505.SetTempOS | mbed/DS7505.cpp:73-78 | a threshold write to T_OS |
| MbedDriver.DS7505.SetTempHyst | mbed/DS7505.cpp:80-85 | a threshold write to T_HYST |
| MbedDriver.DS7505.CopySRAMtoEPRROM | mbed/DS7505.cpp:87-92 | exactly one byte 0x48 is sent; the result follows the write |
| MbedDriver.DS7505.SoftwarePOR | mbed/DS7505.cpp:94-96 | exactly one byte 0x54 is sent and nothing is reported |
| MbedDriver.DS7505.RecallData | mbed/DS7505.cpp:98-103 | exactly one byte 0xB8 is sent; the result follows the write |
| MbedDriver.DS7505.MemoryBusy | mbed/DS7505.cpp:105-113 | true iff the configuration read succeeded and bit 7 of the byte read is set |
| MbedDriver.DS7505.ShutDown | mbed/DS7505.cpp:115-117 | the power-mode write with SHUTDOWN |
| MbedDriver.DS7505.WakeUp | mbed/DS7505.cpp:119-121 | the power-mode write with ACTIVE_CONVER |
| MbedDriver.DS7505.ShutMode | mbed/DS7505.cpp:124-137 | a configuration read, then, only if it succeeded, CONFIG and the byte read with bit 0 set to the mode; the third byte is unspecified |
| ZephyrDriver.Ds7505.constructor | zephyr/ds7505.h:59-66 | a struct holds the bus and address the application gave it |
| ZephyrDriver.ThresholdFrameAsWritten | zephyr/ds7505.c:35-37 | the buffer holds three bytes: the stale first one, then the intended high and low byte |
| ZephyrDriver.FrameAsWrittenBytes | zephyr/ds7505.c:35-37 | after the three assignments the buffer holds the stale byte, the high byte and the low byte |
| ZephyrDriver.ThresholdPointerLost | zephyr/ds7505.c:32-39 | the first byte sent is whatever the buffer held, so the frame is right only if that happened to be the pointer |
| ZephyrDriver.ConfigWriteResultAsWritten | zephyr/ds7505.c:104-107 | an acknowledged write reports ERROR; SUCCESS only when the write failed and the read-back succeeded |
| ZephyrDriver.ConfigWriteCheckInverted | zephyr/ds7505.c:104-107 | whenever the read-back would succeed, the result is the opposite of the intended one |
| ZephyrDriver.ConfigWriteAsWritten | zephyr/ds7505.c:97-108 | ds7505_set_config_reg makes one to three transfers, changes no cache field but `config`, and reports SUCCESS only after a refused write |
| ZephyrDriver.ConfigWriteAsWrittenOutcome | zephyr/ds7505.c:97-108 | an acknowledged configuration write always reports ERROR and reads nothing; SUCCESS follows only a refused write and a successful read |
| ZephyrDriver.PowerModeWrite | zephyr/ds7505.c:64-80 | ds7505_shut_mode makes one to three transfers, changes no cache field but `config`, and reports SUCCESS or ERROR |
| ZephyrDriver.PowerModeAfterRead | zephyr/ds7505.c:66-77 | a successful configuration read followed by the write of [CONFIG, modified byte] makes up a whole ds7505_shut_mode whose result is that write's |
| ZephyrDriver.PowerModeReadFailed | zephyr/ds7505.c:64-80 | a failed configuration read alone makes up a whole ds7505_shut_mode that reports ERROR |
| ZephyrDriver.ThresholdWriteAsWritten | zephyr/ds7505.c:30-49 | ds7505_set_TOsor_HYST is one three-byte transfer whose last two bytes are the intended data bytes, and it leaves `config` and `temperature` alone |
| ZephyrDriver.ThresholdWriteSteps | zephyr/ds7505.c:39-48 | one write of the as-written frame, with the cache updated only if it returned 0, makes up a whole ds7505_set_TOsor_HYST whose result is that write's |
| ZephyrDriver.StoreTemperature | zephyr/ds7505.c:15-23 | after a successful read the decoded value is stored in the field the pointer selects, and no other field changes |
| ZephyrDriver.GetTemperatureReg | zephyr/ds7505.c:7-28 | pointer write, then a two-byte read only if it returned 0; the decoded value goes to the selected field only on success |
| ZephyrDriver.ThresholdSendData | zephyr/ds7505.c:32-37 | the three-byte buffer as the source fills it, element 0 never assigned |
| ZephyrDriver.SetTOsorHYST | zephyr/ds7505.c:30-49 | one three-byte write of that buffer; on success the raw count is cached in temp_os for T_OS, else temp_hyst |
| ZephyrDriver.GetConfigReg | zephyr/ds7505.c:51-62 | pointer CONFIG, then one byte read only if that returned 0; `config` updated only when both succeeded |
| ZephyrDriver.PowerModeSendData | zephyr/ds7505.c:67-73 | the two-byte buffer is CONFIG, then the configuration byte with bit 0 set to the mode |
| ZephyrDriver.ShutMode | zephyr/ds7505.c:64-80 | a configuration read, then, only if it succeeded, exactly [CONFIG, byte read with bit 0 set to the mode] |
| ZephyrDriver.GetTemp | zephyr/ds7505.c:82-85 | a register read of TEMPER |
| ZephyrDriver.GetTempOS | zephyr/ds7505.c:87-90 | a register read of T_OS |
| ZephyrDriver.GetTempHYST | zephyr/ds7505.c:92-95 | a register read of T_HYST |
| ZephyrDriver.SetConfigReg | zephyr/ds7505.c:97-108 | exactly [CONFIG, packed byte] is sent; the read-back runs only if the write returned nonzero |
| ZephyrDriver.SetTempOS | zephyr/ds7505.c:110-113 | a threshold write to T_OS |
| ZephyrDriver.SetTempHYST | zephyr/ds7505.c:115-118 | a threshold write to T_HYST |
| ZephyrDriver.CopySRAMtoEPRROM | zephyr/ds7505.c:120-127 | exactly one byte 0x48 is sent; the result follows the write |
| ZephyrDriver.SoftwarePOR | zephyr/ds7505.c:129-133 | exactly one byte 0x54 is sent; its status is dropped |
| ZephyrDriver.RecallData | zephyr/ds7505.c:135-142 | exactly one byte 0xB8 is sent; the result follows the write |
| ZephyrDriver.MemoryBusy | zephyr/ds7505.c:144-153 | true iff the configuration read succeeded and bit 7 of the byte read is set |
| ZephyrDriver.Shutdown | zephyr/ds7505.c:155-158 | the power-mode write with SHUTDOWN |
| ZephyrDriver.WakeUp | zephyr/ds7505.c:160-163 | the power-mode write with ACTIVE_CONVER |

## Left out

- The I2C transport (`I2C::read`/`I2C::write` and `i2c_read`/`i2c_write`) is foreign
  code. It is replaced by a bus whose status and read bytes are unconstrained.
- Bus discovery, pins and interrupts are outside the driver and not modelled.
- Float arithmetic is modelled exactly with `real`. A reading is stored as raw/256
  exactly. Single-precision rounding is not modelled, although every value involved
  is exact in a float.
- MbedDriver.DS7505.SetTOSorHYST requires the truncated count to fit in int16. The
  same holds for ZephyrDriver.SetTOsorHYST, SetTempOS, SetTempHyst and SetTempHYST.
  The reason is that C leaves the float-to-int16_t conversion undefined outside that
  range.
- The conversion of `(hi << 8) | lo` to int16_t is implementation-defined. It is
  modelled as two's-complement wrap-around.
- Bytes are unsigned. The mbed port uses `char`, which may be signed on some targets.
  That case is not modelled.
- MbedDriver.DS7505.SetConfigReg and ShutMode pass length 2 for a single data byte.
  The third byte on the wire comes from memory past that byte. The model leaves it
  unspecified.
- MbedDriver.Frame and WriteData require `len < 255`. At `len` = 255 the
  `uint8_t` `newLen = len + 1` wraps to 0, so the buffer has no room, and
  `for(uint8_t i = 1; i <= len; i++)` never ends, because `i` wraps from 255
  to 0 (mbed/DS7505.cpp:194-198). No caller passes a length above 2.
- The destructor and the ownership of the I2C object are not modelled. The model
  keeps only which bus a handle uses.
- The Zephyr struct has no constructor in the source. The model's constructor only
  sets `dev` and `addr`, and leaves the cache fields unconstrained, as the source
  does.
- `zephyr/main.c`, the example program in the mbed header comment, and conversion
  timing are application code and delays. They are not modelled.

## Findings

| source | as written | input that shows it | evidently intended | confidence | as-written member | corrected member |
|---|---|---|---|---|---|---|
| zephyr/ds7505.c:35-36 | the pointer is assigned to `sendData[1]` and at once overwritten by the high byte, so `sendData[0]` is never set | stale buffer byte 0x00, T_OS, 29.0: sends [0x00, 0x1D, 0x00], a write aimed at TEMPER | `sendData[0]` is the register pointer, as in the mbed port | high; not executed | ZephyrDriver.ThresholdPointerLost | Codec.ThresholdFrame |
| zephyr/ds7505.c:104 | the read-back runs when `i2c_write` returns nonzero, which is failure, and an acknowledged write returns ERROR | write status 0, any read-back: result ERROR | `== 0`, as in every other call of the file and in the mbed port | high; not executed | ZephyrDriver.ConfigWriteCheckInverted | Handle.ConfigWriteResult |
| mbed/DS7505.cpp:170-172 | a threshold write caches the raw count in a field that reads store in °C; zephyr/ds7505.c:42-44 does the same | setTempOS(29.0) caches 7424.0; getTempOS afterwards caches 29.0 | cache raw / 256, the value a read-back of the written bytes gives | medium; not executed | Handle.ThresholdCacheUnits | Handle.ThresholdCacheMatchesReadBack |

The driver methods keep the as-written behaviour of their own port. The mbed port
sends the corrected threshold frame and uses the corrected configuration-write
result. The corrected cache update is `Handle.StoreThresholdCelsius`.
