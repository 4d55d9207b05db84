/**
 * The register cache both drivers keep in their `ds7505_t`, and the rules by
 * which an operation's outcome changes it and decides its return code.
 * Temperatures are stored as the source stores them, in a float: a register
 * read stores degrees Celsius, a threshold write stores the raw count.
 */
module Handle {
  import opened Registers
  import opened Codec
  import opened I2C

  /** `config`, `temp_hyst`, `temp_os` and `temperature` of `ds7505_t`. */
  datatype Cache = Cache(config: bv8, tempHyst: real, tempOs: real, temperature: real)

  /** `== 0 ? DS7505_SUCCESS : DS7505_ERROR`: a transport status as a driver return code. */
  function Code(status: int): (r: int)
    ensures r == SUCCESS || r == ERROR
    ensures r == SUCCESS <==> status == 0
  {
    if status == 0 then SUCCESS else ERROR
  }

  /** The return code of an operation that is a register read. */
  function ReadResult(t: seq<Transfer>): (r: int)
    ensures r == SUCCESS || r == ERROR
    ensures r == SUCCESS ==> |t| == 2 && t[1].status == 0
  {
    if ReadSucceeded(t) then SUCCESS else ERROR
  }

  /**
   * A configuration read: pointer CONFIG, then one byte, which replaces the
   * cached `config` only when both transfers succeeded; nothing else changes.
   */
  predicate ConfigRead(t: seq<Transfer>, waddr: bv8, raddr: bv8, before: Cache, after: Cache)
    ensures ConfigRead(t, waddr, raddr, before, after) ==> 1 <= |t| <= 2 && after.(config := before.config) == before
  {
    && RegisterRead(t, waddr, raddr, Pointer(Config), 1)
    && after == if ReadSucceeded(t) then before.(config := t[1].bytes[0]) else before
  }

  /**
   * A temperature-register read: pointer `reg`, then two bytes, decoded into
   * the field that `reg` selects only when both transfers succeeded.
   */
  predicate TemperatureRead(t: seq<Transfer>, waddr: bv8, raddr: bv8, reg: Reg, before: Cache, after: Cache)
    ensures TemperatureRead(t, waddr, raddr, reg, before, after) ==> 1 <= |t| <= 2 && after.config == before.config
  {
    && RegisterRead(t, waddr, raddr, Pointer(reg), 2)
    && after == if ReadSucceeded(t) then StoreReading(before, reg, DecodeCelsius(t[1].bytes[0], t[1].bytes[1])) else before
  }

  /**
   * A register read reports success exactly when both transfers succeeded; no
   * read is attempted after a failed pointer write; on failure the cache is
   * untouched, on success only the field the pointer selects changes, to the decoded value.
   */
  lemma TemperatureReadOutcome(t: seq<Transfer>, waddr: bv8, raddr: bv8, reg: Reg, before: Cache, after: Cache)
    requires TemperatureRead(t, waddr, raddr, reg, before, after)
    ensures ReadResult(t) == SUCCESS <==> t[0].status == 0 && t[1].status == 0
    ensures t[0].status != 0 ==> |t| == 1
    ensures ReadResult(t) == ERROR ==> after == before
    ensures ReadResult(t) == SUCCESS ==>
              after.config == before.config &&
              (reg == Temper ==> after == before.(temperature := DecodeCelsius(t[1].bytes[0], t[1].bytes[1]))) &&
              (reg == TOs ==> after == before.(tempOs := DecodeCelsius(t[1].bytes[0], t[1].bytes[1]))) &&
              (reg == THyst ==> after == before.(tempHyst := DecodeCelsius(t[1].bytes[0], t[1].bytes[1])))
  {
  }

  /** The same for a configuration read: only `config` can change, and only on success, to the byte read. */
  lemma ConfigReadOutcome(t: seq<Transfer>, waddr: bv8, raddr: bv8, before: Cache, after: Cache)
    requires ConfigRead(t, waddr, raddr, before, after)
    ensures ReadResult(t) == SUCCESS <==> t[0].status == 0 && t[1].status == 0
    ensures t[0].status != 0 ==> |t| == 1
    ensures ReadResult(t) == ERROR ==> after == before
    ensures ReadResult(t) == SUCCESS ==> after == before.(config := t[1].bytes[0])
  {
  }

  /** A pointer write the bus refused is a whole register read: nothing read, nothing changed, ERROR. */
  lemma PointerWriteFailed(t: seq<Transfer>, waddr: bv8, raddr: bv8, pointer: bv8, n: nat)
    requires |t| == 1 && t[0] == Sent(waddr, [pointer], t[0].status) && t[0].status != 0
    ensures RegisterRead(t, waddr, raddr, pointer, n) && !ReadSucceeded(t) && ReadResult(t) == ERROR
  {
  }

  /** An acknowledged pointer write and the two-byte read after it are a whole temperature-register read. */
  lemma TemperatureReadSteps(x: Transfer, y: Transfer, waddr: bv8, raddr: bv8, reg: Reg, before: Cache, after: Cache)
    requires x == Sent(waddr, [Pointer(reg)], 0)
    requires y == Received(raddr, 2, y.bytes, y.status) && |y.bytes| == 2
    requires after == if y.status == 0 then StoreReading(before, reg, DecodeCelsius(y.bytes[0], y.bytes[1])) else before
    ensures TemperatureRead([x, y], waddr, raddr, reg, before, after)
    ensures ReadResult([x, y]) == Code(y.status)
  {
  }

  /** An acknowledged pointer write and the one-byte read after it are a whole configuration read. */
  lemma ConfigReadSteps(x: Transfer, y: Transfer, waddr: bv8, raddr: bv8, before: Cache, after: Cache)
    requires x == Sent(waddr, [Pointer(Config)], 0)
    requires y == Received(raddr, 1, y.bytes, y.status) && |y.bytes| == 1
    requires after == if y.status == 0 then before.(config := y.bytes[0]) else before
    ensures ConfigRead([x, y], waddr, raddr, before, after)
    ensures ReadResult([x, y]) == Code(y.status)
  {
  }

  /** The zeroed cache both mbed constructors set up. */
  const ZeroCache: Cache := Cache(0, 0.0, 0.0, 0.0)

  /** After a successful register read: TEMPER updates `temperature`, T_OS `temp_os`, any other pointer `temp_hyst`. */
  function StoreReading(c: Cache, reg: Reg, celsius: real): (d: Cache)
    ensures d.config == c.config
    ensures reg == Temper ==> d.temperature == celsius && d.tempOs == c.tempOs && d.tempHyst == c.tempHyst
    ensures reg == TOs ==> d.tempOs == celsius && d.temperature == c.temperature && d.tempHyst == c.tempHyst
    ensures reg != Temper && reg != TOs ==> d.tempHyst == celsius && d.temperature == c.temperature && d.tempOs == c.tempOs
  {
    if reg == Temper then c.(temperature := celsius)
    else if reg == TOs then c.(tempOs := celsius)
    else c.(tempHyst := celsius)
  }

  /** After a successful threshold write, as both ports do it: T_OS updates `temp_os`, any other pointer `temp_hyst`, with the raw count. */
  function StoreThreshold(c: Cache, reg: Reg, raw: int): (d: Cache)
    ensures d.config == c.config && d.temperature == c.temperature
    ensures reg == TOs ==> d.tempOs == raw as real && d.tempHyst == c.tempHyst
    ensures reg != TOs ==> d.tempHyst == raw as real && d.tempOs == c.tempOs
  {
    if reg == TOs then c.(tempOs := raw as real) else c.(tempHyst := raw as real)
  }

  /** The same update in degrees Celsius, as a read of the register would store it. */
  function StoreThresholdCelsius(c: Cache, reg: Reg, raw: int): (d: Cache)
    ensures d.config == c.config && d.temperature == c.temperature
    ensures reg == TOs ==> d.tempOs * 256.0 == raw as real && d.tempHyst == c.tempHyst
    ensures reg != TOs ==> d.tempHyst * 256.0 == raw as real && d.tempOs == c.tempOs
  {
    if reg == TOs then c.(tempOs := raw as real / 256.0) else c.(tempHyst := raw as real / 256.0)
  }

  /**
   * As written, a threshold write leaves in the cache a value 256 times the one
   * a read-back of the same register stores: writing 29.0 to T_OS caches 7424.0,
   * reading T_OS afterwards caches 29.0.
   */
  lemma ThresholdCacheUnits(c: Cache, reg: Reg, raw: int)
    requires reg == TOs || reg == THyst
    requires InInt16(raw) && raw != 0
    ensures StoreThreshold(c, reg, raw) != StoreReading(c, reg, DecodeCelsius(HiByte(raw), LoByte(raw)))
    ensures StoreThreshold(c, TOs, RawOf(29.0)).tempOs == 7424.0
    ensures StoreReading(c, TOs, DecodeCelsius(HiByte(RawOf(29.0)), LoByte(RawOf(29.0)))).tempOs == 29.0
  {
    DecodeEncode(raw);
    EncodeExample();
    DecodeEncode(0x1D00);
  }

  /** In degrees Celsius the cache after a threshold write equals what reading those bytes back would leave. */
  lemma ThresholdCacheMatchesReadBack(c: Cache, reg: Reg, raw: int)
    requires reg == TOs || reg == THyst
    requires InInt16(raw)
    ensures StoreThresholdCelsius(c, reg, raw) == StoreReading(c, reg, DecodeCelsius(HiByte(raw), LoByte(raw)))
  {
    DecodeEncode(raw);
  }

  /** The return code of a configuration write: the read-back's result if the write succeeded, ERROR otherwise. */
  function ConfigWriteResult(writeStatus: int, readBack: int): (r: int)
    ensures writeStatus != 0 ==> r == ERROR
    ensures r == SUCCESS <==> writeStatus == 0 && readBack == SUCCESS
  {
    if writeStatus == 0 then readBack else ERROR
  }

  /** A configuration write whose read-back reports a driver code reports a driver code too. */
  lemma ConfigWriteResultSucceeds(writeStatus: int, readBack: int)
    requires readBack == SUCCESS || readBack == ERROR
    ensures ConfigWriteResult(writeStatus, readBack) == SUCCESS || ConfigWriteResult(writeStatus, readBack) == ERROR
  {
  }
}
