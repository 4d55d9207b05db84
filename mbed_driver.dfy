/**
 * The mbed port: class `DS7505`, which owns or borrows an I2C bus, keeps the
 * register cache `ds7505` and issues every register access itself. Addresses
 * on the wire are the 8-bit forms, the shifted address with the direction bit.
 */
module MbedDriver {
  import opened Registers
  import opened Codec
  import opened I2C
  import opened Handle
  import opened MbedAddress

  /**
   * A write of the single configuration byte `b`, issued with length 2: the
   * frame is CONFIG, `b` and one more byte read from beyond `b` in memory.
   */
  predicate ConfigByteWrite(x: Transfer, waddr: bv8, b: bv8)
    ensures ConfigByteWrite(x, waddr, b) ==> |x.bytes| == 3 && x.bytes[0] == Pointer(Config) && x.bytes[1] == b
  {
    x.Sent? && x.addr == waddr && |x.bytes| == 3 && x.bytes[..2] == [Pointer(Config), b]
  }

  /**
   * setConfigReg: the packed byte is written; only if that succeeded is the
   * configuration read back, and its result is the result.
   */
  predicate ConfigWrite(t: seq<Transfer>, addr: bv8, packed: bv8, before: Cache, after: Cache, r: int)
    ensures ConfigWrite(t, addr, packed, before, after, r) ==>
              1 <= |t| <= 3 && after.(config := before.config) == before && (r == SUCCESS ==> t[0].status == 0)
  {
    && 1 <= |t|
    && ConfigByteWrite(t[0], WriteAddr(addr), packed)
    && if t[0].status == 0 then
         ConfigRead(t[1..], WriteAddr(addr), ReadAddr(addr), before, after)
         && r == ConfigWriteResult(t[0].status, ReadResult(t[1..]))
       else
         |t| == 1 && r == ERROR && after == before
  }

  /**
   * shutMode: a configuration read; only if it succeeded, the byte just read
   * with bit 0 set or cleared is written back, and that write's status is the result.
   */
  predicate PowerModeWrite(t: seq<Transfer>, addr: bv8, mode: Shutdown, before: Cache, after: Cache, r: int)
    ensures PowerModeWrite(t, addr, mode, before, after, r) ==>
              1 <= |t| <= 3 && after.(config := before.config) == before && (r == SUCCESS || r == ERROR)
  {
    var k := ReadPhase(t);
    && k <= |t|
    && ConfigRead(t[..k], WriteAddr(addr), ReadAddr(addr), before, after)
    && if ReadSucceeded(t[..k]) then
         |t| == k + 1 && ConfigByteWrite(t[k], WriteAddr(addr), WithShutdown(after.config, mode)) && r == Code(t[k].status)
       else
         |t| == k && r == ERROR
  }

  /**
   * setTOSorHYST: one write of pointer, high byte, low byte of the raw count;
   * on success the raw count itself is cached.
   */
  predicate ThresholdWrite(t: seq<Transfer>, addr: bv8, reg: Reg, raw: int, before: Cache, after: Cache, r: int)
    requires InInt16(raw)
    ensures ThresholdWrite(t, addr, reg, raw, before, after, r) ==>
              |t| == 1 && after.config == before.config && after.temperature == before.temperature
              && (r == SUCCESS <==> t[0].status == 0)
  {
    && SingleWrite(t, WriteAddr(addr), ThresholdFrame(reg, raw))
    && r == Code(t[0].status)
    && after == if t[0].status == 0 then StoreThreshold(before, reg, raw) else before
  }

  /**
   * setConfigReg reports success exactly when the write, the pointer write and
   * the read all succeeded, and the cache then holds the byte read back; after
   * a failed write nothing is read and the cache is unchanged.
   */
  lemma ConfigWriteOutcome(t: seq<Transfer>, addr: bv8, packed: bv8, before: Cache, after: Cache, r: int)
    requires ConfigWrite(t, addr, packed, before, after, r)
    ensures r == SUCCESS <==> t[0].status == 0 && ReadSucceeded(t[1..])
    ensures r == SUCCESS ==> after == before.(config := t[2].bytes[0])
    ensures t[0].status != 0 ==> |t| == 1 && after == before
  {
    if t[0].status == 0 {
      ConfigWriteResultSucceeds(t[0].status, ReadResult(t[1..]));
    }
  }

  /**
   * shutMode reports success exactly when the configuration read and the write
   * both succeeded; the byte written then differs from the byte read in bit 0
   * alone, which holds the requested mode, and the busy bit is carried over.
   */
  lemma PowerModeOutcome(t: seq<Transfer>, addr: bv8, mode: Shutdown, before: Cache, after: Cache, r: int)
    requires PowerModeWrite(t, addr, mode, before, after, r)
    ensures r == SUCCESS <==> ReadSucceeded(t[..ReadPhase(t)]) && t[ReadPhase(t)].status == 0
    ensures r == SUCCESS ==> var b := t[2].bytes[1];
              b & 0xFE == after.config & 0xFE && PowerModeOf(b) == mode && IsMemoryBusy(b) == IsMemoryBusy(after.config)
    ensures !ReadSucceeded(t[..ReadPhase(t)]) ==> after == before && |t| == ReadPhase(t)
  {
    var k := ReadPhase(t);
    if r == SUCCESS {
      assert ReadSucceeded(t[..k]);
      assert k == 2;
      var b := t[2].bytes[1];
      assert b == WithShutdown(after.config, mode);
      ShutdownLastWins(after.config, mode, mode);
      MemoryBusyBit(after.config, Bits9, Trig1, ActiveLow, Comparator, mode);
    }
  }

  /** The write of the pointer and the two data bytes (the log since `start`), and the cache update it allows, make up a whole setTOSorHYST. */
  lemma ThresholdWriteSteps(start: seq<Transfer>, end: seq<Transfer>, addr: bv8, reg: Reg, raw: int,
                            before: Cache, after: Cache, w: int)
    requires InInt16(raw) && start <= end
    requires SingleWrite(end[|start|..], WriteAddr(addr), [Pointer(reg)] + [HiByte(raw), LoByte(raw)][..2])
    requires w == Code(end[|start|..][0].status)
    requires after == if w == SUCCESS then StoreThreshold(before, reg, raw) else before
    ensures ThresholdWrite(end[|start|..], addr, reg, raw, before, after, w)
  {
    assert [Pointer(reg)] + [HiByte(raw), LoByte(raw)][..2] == ThresholdFrame(reg, raw);
  }

  /**
   * A successful configuration read (the log from `start` to `mid`) followed by the
   * power-mode write (from `mid` to `end`) makes up a whole shutMode reporting `w`.
   */
  lemma PowerModeAfterRead(start: seq<Transfer>, mid: seq<Transfer>, end: seq<Transfer>, addr: bv8, mode: Shutdown,
                           beyond: bv8, before: Cache, after: Cache, w: int)
    requires start <= mid <= end
    requires ConfigRead(mid[|start|..], WriteAddr(addr), ReadAddr(addr), before, after) && ReadSucceeded(mid[|start|..])
    requires SingleWrite(end[|mid|..], WriteAddr(addr), [Pointer(Config)] + [WithShutdown(after.config, mode), beyond][..2])
    requires w == Code(end[|mid|..][0].status)
    ensures PowerModeWrite(end[|start|..], addr, mode, before, after, w)
  {
    LogSplit(start, mid, end);
    var read, x := mid[|start|..], end[|mid|];
    assert end[|start|..] == read + [x];
    assert (read + [x])[..2] == read;
  }

  /** A failed configuration read is a whole shutMode that reports ERROR. */
  lemma PowerModeReadFailed(read: seq<Transfer>, addr: bv8, mode: Shutdown, before: Cache, after: Cache)
    requires ConfigRead(read, WriteAddr(addr), ReadAddr(addr), before, after) && !ReadSucceeded(read)
    ensures PowerModeWrite(read, addr, mode, before, after, ERROR)
  {
    assert read[..ReadPhase(read)] == read;
  }

  /** The new configuration byte of shutMode: bit 0 cleared for ACTIVE_CONVER, set for SHUTDOWN. */
  method ShutdownByte(config: bv8, mode: Shutdown) returns (newReg: bv8)
    ensures newReg == WithShutdown(config, mode)
  {
    if mode == ActiveConver {
      newReg := config & 0xFE;
    } else {
      newReg := config | 0x01;
    }
  }

  /** The `sendData` buffer of `write(reg, data, len)`: `reg`, then the first `len` bytes at `data`. */
  method Frame(reg: bv8, data: seq<bv8>, len: nat) returns (frame: seq<bv8>)
    requires len <= |data| && len < 255
    ensures |frame| == len + 1
    ensures frame[0] == reg && frame[1..] == data[..len]
  {
    var sendData := new bv8[len + 1];
    sendData[0] := reg;
    var i := 1;
    while i <= len
      invariant 1 <= i <= len + 1
      invariant sendData[0] == reg
      invariant forall k :: 1 <= k < i ==> sendData[k] == data[k - 1]
    {
      sendData[i] := data[i - 1];
      i := i + 1;
    }
    frame := sendData[..];
  }

  class DS7505 {
    /** The bus, owned (first constructor) or borrowed (second). */
    const bus: Bus
    /** `ds7505.addr`: the device address shifted left once. */
    var addr: bv8
    var config: bv8
    var tempHyst: real
    var tempOs: real
    var temperature: real

    function Cached(): Cache
      reads this
    {
      Cache(config, tempHyst, tempOs, temperature)
    }

    /** `DS7505(sda, scl, addr)`: creates a bus of its own. */
    constructor OwnBus(addr: bv8 := DS7505_I2C_ADDRESS)
      ensures fresh(bus) && bus.log == []
      ensures this.addr == ShiftedAddress(addr) && Cached() == ZeroCache
    {
      bus := new Bus();
      this.addr := addr << 1;
      config := 0;
      tempHyst := 0.0;
      tempOs := 0.0;
      temperature := 0.0;
    }

    /** `DS7505(i2c, addr)`: uses a bus shared with other drivers. */
    constructor (i2c: Bus, addr: bv8 := DS7505_I2C_ADDRESS)
      ensures bus == i2c
      ensures this.addr == ShiftedAddress(addr) && Cached() == ZeroCache
    {
      bus := i2c;
      this.addr := addr << 1;
      config := 0;
      tempHyst := 0.0;
      tempOs := 0.0;
      temperature := 0.0;
    }

    /** `read(data, length)`. */
    method ReadBytes(length: nat) returns (r: int, data: seq<bv8>)
      modifies bus
      ensures old(bus.log) <= bus.log
      ensures var t := bus.log[|old(bus.log)|..];
              |t| == 1 && t[0] == Received(ReadAddr(addr), length, data, t[0].status) && r == Code(t[0].status)
      ensures |data| == length
    {
      var status;
      status, data := bus.Read(ReadAddr(addr), length);
      if status == SUCCESS {
        return SUCCESS, data;
      }
      return ERROR, data;
    }

    /** `write(reg)`: a one-byte transfer. */
    method WriteByte(reg: bv8) returns (r: int)
      modifies bus
      ensures old(bus.log) <= bus.log
      ensures var t := bus.log[|old(bus.log)|..];
              SingleWrite(t, WriteAddr(addr), [reg]) && r == Code(t[0].status)
    {
      var status := bus.Write(WriteAddr(addr), [reg]);
      if status == SUCCESS {
        return SUCCESS;
      }
      return ERROR;
    }

    /** `write(reg, data, len)`: `reg` followed by `len` data bytes in one transfer. */
    method WriteData(reg: bv8, data: seq<bv8>, len: nat) returns (r: int)
      requires len <= |data| && len < 255
      modifies bus
      ensures old(bus.log) <= bus.log
      ensures var t := bus.log[|old(bus.log)|..];
              SingleWrite(t, WriteAddr(addr), [reg] + data[..len]) && r == Code(t[0].status)
    {
      var sendData := Frame(reg, data, len);
      assert sendData == [reg] + data[..len];
      var status := bus.Write(WriteAddr(addr), sendData);
      if status == SUCCESS {
        return SUCCESS;
      }
      return ERROR;
    }

    method GetConfigReg() returns (r: int)
      modifies this`config, bus
      ensures old(bus.log) <= bus.log
      ensures var t := bus.log[|old(bus.log)|..];
              ConfigRead(t, WriteAddr(addr), ReadAddr(addr), old(Cached()), Cached()) && r == ReadResult(t)
    {
      ghost var start, before := bus.log, Cached();
      var w := WriteByte(Pointer(Config));
      ghost var mid := bus.log;
      if w != SUCCESS {
        PointerWriteFailed(bus.log[|start|..], WriteAddr(addr), ReadAddr(addr), Pointer(Config), 1);
        return ERROR;
      }
      var s, data := ReadBytes(1);
      TwoAppended(start, mid, bus.log);
      ghost var x, y := mid[|start|], bus.log[|mid|];
      assert x == Sent(WriteAddr(addr), [Pointer(Config)], 0);
      assert y == Received(ReadAddr(addr), 1, data, y.status) && s == Code(y.status);
      if s == SUCCESS {
        config := data[0];
        ConfigReadSteps(x, y, WriteAddr(addr), ReadAddr(addr), before, Cached());
        return SUCCESS;
      }
      ConfigReadSteps(x, y, WriteAddr(addr), ReadAddr(addr), before, Cached());
      return ERROR;
    }

    method SetConfigReg(resolution: Resolution := Bits9, tolerance: FaultTolerance := Trig1,
                        polarity: Polarity := ActiveLow, mode: ThermostatMode := Comparator) returns (r: int)
      modifies this`config, bus
      ensures old(bus.log) <= bus.log
      ensures ConfigWrite(bus.log[|old(bus.log)|..], addr, PackConfig(resolution, tolerance, polarity, mode),
                          old(Cached()), Cached(), r)
    {
      ghost var start := bus.log;
      var data := ResolutionBits(resolution) | FaultToleranceBits(tolerance) | PolarityBits(polarity) | ModeBits(mode);
      var beyond: bv8 :| true;
      var w := WriteData(Pointer(Config), [data, beyond], 2);
      ghost var mid := bus.log;
      if w == SUCCESS {
        r := GetConfigReg();
        assert bus.log[|start|..][0] == mid[|start|];
        assert bus.log[|start|..][1..] == bus.log[|mid|..];
        return r;
      }
      return ERROR;
    }

    method GetTemperatureReg(tempReg: Reg) returns (r: int)
      modifies this`temperature, this`tempOs, this`tempHyst, bus
      ensures old(bus.log) <= bus.log
      ensures var t := bus.log[|old(bus.log)|..];
              TemperatureRead(t, WriteAddr(addr), ReadAddr(addr), tempReg, old(Cached()), Cached()) && r == ReadResult(t)
    {
      ghost var start, before := bus.log, Cached();
      var w := WriteByte(Pointer(tempReg));
      ghost var mid := bus.log;
      if w != SUCCESS {
        PointerWriteFailed(bus.log[|start|..], WriteAddr(addr), ReadAddr(addr), Pointer(tempReg), 2);
        return ERROR;
      }
      var s, data := ReadBytes(2);
      TwoAppended(start, mid, bus.log);
      ghost var x, y := mid[|start|], bus.log[|mid|];
      assert x == Sent(WriteAddr(addr), [Pointer(tempReg)], 0);
      assert y == Received(ReadAddr(addr), 2, data, y.status) && s == Code(y.status);
      if s == SUCCESS {
        var buf := Signed16(data[0] as int * 256 + data[1] as int);
        var temp := buf as real / 256.0;
        assert temp == DecodeCelsius(data[0], data[1]);
        if tempReg == Temper {
          temperature := temp;
        } else if tempReg == TOs {
          tempOs := temp;
        } else {
          tempHyst := temp;
        }
        TemperatureReadSteps(x, y, WriteAddr(addr), ReadAddr(addr), tempReg, before, Cached());
        return SUCCESS;
      }
      TemperatureReadSteps(x, y, WriteAddr(addr), ReadAddr(addr), tempReg, before, Cached());
      return ERROR;
    }

    method GetTemp() returns (r: int)
      modifies this`temperature, this`tempOs, this`tempHyst, bus
      ensures old(bus.log) <= bus.log
      ensures var t := bus.log[|old(bus.log)|..];
              TemperatureRead(t, WriteAddr(addr), ReadAddr(addr), Temper, old(Cached()), Cached()) && r == ReadResult(t)
    {
      var s := GetTemperatureReg(Temper);
      if s == SUCCESS {
        return SUCCESS;
      }
      return ERROR;
    }

    method GetTempOS() returns (r: int)
      modifies this`temperature, this`tempOs, this`tempHyst, bus
      ensures old(bus.log) <= bus.log
      ensures var t := bus.log[|old(bus.log)|..];
              TemperatureRead(t, WriteAddr(addr), ReadAddr(addr), TOs, old(Cached()), Cached()) && r == ReadResult(t)
    {
      var s := GetTemperatureReg(TOs);
      if s == SUCCESS {
        return SUCCESS;
      }
      return ERROR;
    }

    method GetTempHYST() returns (r: int)
      modifies this`temperature, this`tempOs, this`tempHyst, bus
      ensures old(bus.log) <= bus.log
      ensures var t := bus.log[|old(bus.log)|..];
              TemperatureRead(t, WriteAddr(addr), ReadAddr(addr), THyst, old(Cached()), Cached()) && r == ReadResult(t)
    {
      var s := GetTemperatureReg(THyst);
      if s == SUCCESS {
        return SUCCESS;
      }
      return ERROR;
    }

    /** The float-to-int16_t conversion is undefined outside the int16_t range, hence the precondition. */
    method SetTOSorHYST(tOS_HYST: Reg, temp: real) returns (r: int)
      requires InInt16(RawOf(temp))
      modifies this`tempOs, this`tempHyst, bus
      ensures old(bus.log) <= bus.log
      ensures ThresholdWrite(bus.log[|old(bus.log)|..], addr, tOS_HYST, RawOf(temp), old(Cached()), Cached(), r)
    {
      ghost var start, before := bus.log, Cached();
      var buff := RawOf(temp);
      var sendData := [HiByte(buff), LoByte(buff)];
      var w := WriteData(Pointer(tOS_HYST), sendData, 2);
      if w == SUCCESS {
        if tOS_HYST == TOs {
          tempOs := buff as real;
        } else {
          tempHyst := buff as real;
        }
        ThresholdWriteSteps(start, bus.log, addr, tOS_HYST, buff, before, Cached(), w);
        return SUCCESS;
      }
      ThresholdWriteSteps(start, bus.log, addr, tOS_HYST, buff, before, Cached(), w);
      return ERROR;
    }

    method SetTempOS(tempOS: real) returns (r: int)
      requires InInt16(RawOf(tempOS))
      modifies this`tempOs, this`tempHyst, bus
      ensures old(bus.log) <= bus.log
      ensures ThresholdWrite(bus.log[|old(bus.log)|..], addr, TOs, RawOf(tempOS), old(Cached()), Cached(), r)
    {
      var s := SetTOSorHYST(TOs, tempOS);
      if s == SUCCESS {
        return SUCCESS;
      }
      return ERROR;
    }

    method SetTempHyst(tempHYST: real) returns (r: int)
      requires InInt16(RawOf(tempHYST))
      modifies this`tempOs, this`tempHyst, bus
      ensures old(bus.log) <= bus.log
      ensures ThresholdWrite(bus.log[|old(bus.log)|..], addr, THyst, RawOf(tempHYST), old(Cached()), Cached(), r)
    {
      var s := SetTOSorHYST(THyst, tempHYST);
      if s == SUCCESS {
        return SUCCESS;
      }
      return ERROR;
    }

    method CopySRAMtoEPRROM() returns (r: int)
      modifies bus
      ensures old(bus.log) <= bus.log
      ensures var t := bus.log[|old(bus.log)|..];
              SingleWrite(t, WriteAddr(addr), [Opcode(CopyData)]) && r == Code(t[0].status)
    {
      var w := WriteByte(Opcode(CopyData));
      if w == SUCCESS {
        return SUCCESS;
      }
      return ERROR;
    }

    /** The reset is sent and its outcome dropped: the caller learns nothing. */
    method SoftwarePOR()
      modifies bus
      ensures old(bus.log) <= bus.log
      ensures SingleWrite(bus.log[|old(bus.log)|..], WriteAddr(addr), [Opcode(SoftwarePor)])
    {
      var _ := WriteByte(Opcode(SoftwarePor));
    }

    method RecallData() returns (r: int)
      modifies bus
      ensures old(bus.log) <= bus.log
      ensures var t := bus.log[|old(bus.log)|..];
              SingleWrite(t, WriteAddr(addr), [Opcode(Command.RecallData)]) && r == Code(t[0].status)
    {
      var w := WriteByte(Opcode(Command.RecallData));
      if w == SUCCESS {
        return SUCCESS;
      }
      return ERROR;
    }

    /** True only when the configuration read succeeded and its bit 7 is set; a failed read reads as not busy. */
    method MemoryBusy() returns (busy: bool)
      modifies this`config, bus
      ensures old(bus.log) <= bus.log
      ensures var t := bus.log[|old(bus.log)|..];
              ConfigRead(t, WriteAddr(addr), ReadAddr(addr), old(Cached()), Cached())
              && busy == (ReadSucceeded(t) && IsMemoryBusy(config))
    {
      var s := GetConfigReg();
      if s == SUCCESS {
        var temp := config & WRITE_IN_PROGRESS;
        if temp == WRITE_IN_PROGRESS {
          return true;
        }
      }
      return false;
    }

    method ShutDown() returns (r: int)
      modifies this`config, bus
      ensures old(bus.log) <= bus.log
      ensures PowerModeWrite(bus.log[|old(bus.log)|..], addr, ShutdownMode, old(Cached()), Cached(), r)
    {
      r := ShutMode(ShutdownMode);
    }

    method WakeUp() returns (r: int)
      modifies this`config, bus
      ensures old(bus.log) <= bus.log
      ensures PowerModeWrite(bus.log[|old(bus.log)|..], addr, ActiveConver, old(Cached()), Cached(), r)
    {
      r := ShutMode(ActiveConver);
    }

    method ShutMode(mode: Shutdown) returns (r: int)
      modifies this`config, bus
      ensures old(bus.log) <= bus.log
      ensures PowerModeWrite(bus.log[|old(bus.log)|..], addr, mode, old(Cached()), Cached(), r)
    {
      ghost var start := bus.log;
      var s := GetConfigReg();
      ghost var mid := bus.log;
      if s == SUCCESS {
        var newReg := ShutdownByte(config, mode);
        var beyond: bv8 :| true;
        var w := WriteData(Pointer(Config), [newReg, beyond], 2);
        PowerModeAfterRead(start, mid, bus.log, addr, mode, beyond, old(Cached()), Cached(), w);
        if w == SUCCESS {
          return SUCCESS;
        }
        return ERROR;
      } else {
        PowerModeReadFailed(mid[|start|..], addr, mode, old(Cached()), Cached());
        return ERROR;
      }
    }
  }
}
