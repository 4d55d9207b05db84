/**
 * The Zephyr port: `struct ds7505_t` and the functions that take a pointer to
 * it. The bus is the struct's `dev`; transfers go to the 7-bit address of the
 * `addr` enumerator, the same for writes and reads.
 */
module ZephyrDriver {
  import opened Registers
  import opened Codec
  import opened I2C
  import opened Handle
  import opened ZephyrAddress

  /** `struct ds7505_t`. */
  class Ds7505 {
    var dev: Bus
    var addr: Addr
    var config: bv8
    var tempHyst: real
    var tempOs: real
    var temperature: real

    function Cached(): Cache
      reads this
    {
      Cache(config, tempHyst, tempOs, temperature)
    }

    function BusAddr(): bv8
      reads this
    {
      AddrValue(addr)
    }

    /** A struct whose `dev` and `addr` the application has set; the cache fields are not initialised. */
    constructor (dev: Bus, addr: Addr)
      ensures this.dev == dev && this.addr == addr
    {
      this.dev := dev;
      this.addr := addr;
    }
  }

  /**
   * `sendData` of the threshold write after its three assignments: element 1
   * receives the pointer and then, overwriting it, the high byte; element 2 the
   * low byte; element 0 is never assigned and keeps `stale`, whatever the stack held.
   */
  function ThresholdFrameAsWritten(stale: bv8, reg: Reg, raw: int): (f: seq<bv8>)
    requires InInt16(raw)
    ensures |f| == 3 && f[0] == stale && f[1..] == ThresholdFrame(reg, raw)[1..]
  {
    [stale, 0, 0][1 := Pointer(reg)][1 := HiByte(raw)][2 := LoByte(raw)]
  }

  /** Byte by byte, the frame as written. */
  lemma FrameAsWrittenBytes(stale: bv8, reg: Reg, raw: int)
    requires InInt16(raw)
    ensures ThresholdFrameAsWritten(stale, reg, raw) == [stale, HiByte(raw), LoByte(raw)]
  {
  }

  /**
   * The pointer assignment has no effect: the first byte on the wire is the
   * stale one, so the frame is right only when the stack happened to hold the
   * pointer. With a stale 0x00 a T_OS write is addressed to TEMPER.
   */
  lemma ThresholdPointerLost(stale: bv8, reg: Reg, raw: int)
    requires InInt16(raw)
    ensures ThresholdFrameAsWritten(stale, reg, raw)[0] == stale
    ensures ThresholdFrameAsWritten(stale, reg, raw)[1..] == ThresholdFrame(reg, raw)[1..]
    ensures ThresholdFrameAsWritten(stale, reg, raw) == ThresholdFrame(reg, raw) <==> stale == Pointer(reg)
    ensures ThresholdFrameAsWritten(0x00, TOs, 0x1D00) != ThresholdFrame(TOs, 0x1D00)
  {
    var f := ThresholdFrameAsWritten(stale, reg, raw);
    var g := ThresholdFrame(reg, raw);
    assert f[0] == stale;
    if stale != Pointer(reg) {
      assert f[0] != g[0];
    }
    assert ThresholdFrameAsWritten(0x00, TOs, 0x1D00)[0] != ThresholdFrame(TOs, 0x1D00)[0];
  }

  /**
   * The return code of the configuration write as written: the read-back runs,
   * and decides the result, only when `i2c_write` returned nonzero, that is failed.
   */
  function ConfigWriteResultAsWritten(writeStatus: int, readBack: int): (r: int)
    ensures writeStatus == 0 ==> r == ERROR
    ensures r == SUCCESS <==> writeStatus != 0 && readBack == SUCCESS
  {
    if writeStatus != 0 then readBack else ERROR
  }

  /**
   * Whenever the read-back would succeed, the result is the opposite of the
   * intended one: an acknowledged write reports ERROR, a failed one SUCCESS.
   */
  lemma ConfigWriteCheckInverted(writeStatus: int)
    ensures ConfigWriteResultAsWritten(writeStatus, SUCCESS) != ConfigWriteResult(writeStatus, SUCCESS)
    ensures ConfigWriteResultAsWritten(0, SUCCESS) == ERROR
    ensures writeStatus != 0 ==> ConfigWriteResultAsWritten(writeStatus, SUCCESS) == SUCCESS
  {
  }

  /**
   * ds7505_set_config_reg: a two-byte write of CONFIG and the packed byte; the
   * configuration is read back only if that write failed.
   */
  predicate ConfigWriteAsWritten(t: seq<Transfer>, a: bv8, packed: bv8, before: Cache, after: Cache, r: int)
    ensures ConfigWriteAsWritten(t, a, packed, before, after, r) ==>
              1 <= |t| <= 3 && after.(config := before.config) == before && (r == SUCCESS ==> t[0].status != 0)
  {
    && 1 <= |t|
    && t[0] == Sent(a, [Pointer(Config), packed], t[0].status)
    && if t[0].status != 0 then
         ConfigRead(t[1..], a, a, before, after)
         && r == ConfigWriteResultAsWritten(t[0].status, ReadResult(t[1..]))
       else
         |t| == 1 && r == ERROR && after == before
  }

  /**
   * ds7505_set_config_reg as written: an acknowledged write always reports
   * ERROR and reads nothing back; SUCCESS can only follow a write the bus refused.
   */
  lemma ConfigWriteAsWrittenOutcome(t: seq<Transfer>, a: bv8, packed: bv8, before: Cache, after: Cache, r: int)
    requires ConfigWriteAsWritten(t, a, packed, before, after, r)
    ensures t[0].status == 0 ==> r == ERROR && |t| == 1 && after == before
    ensures r == SUCCESS <==> t[0].status != 0 && ReadSucceeded(t[1..])
  {
  }

  /**
   * ds7505_shut_mode: a configuration read; only if it succeeded, CONFIG and the
   * byte just read with bit 0 set or cleared are written, and that write decides the result.
   */
  predicate PowerModeWrite(t: seq<Transfer>, a: bv8, mode: Shutdown, before: Cache, after: Cache, r: int)
    ensures PowerModeWrite(t, a, mode, before, after, r) ==>
              1 <= |t| <= 3 && after.(config := before.config) == before && (r == SUCCESS || r == ERROR)
  {
    var k := ReadPhase(t);
    && k <= |t|
    && ConfigRead(t[..k], a, a, before, after)
    && if ReadSucceeded(t[..k]) then
         |t| == k + 1 && t[k] == Sent(a, [Pointer(Config), WithShutdown(after.config, mode)], t[k].status)
         && r == Code(t[k].status)
       else
         |t| == k && r == ERROR
  }

  /** A successful configuration read followed by the power-mode write makes up a whole ds7505_shut_mode. */
  lemma PowerModeAfterRead(read: seq<Transfer>, x: Transfer, a: bv8, mode: Shutdown, before: Cache, after: Cache)
    requires ConfigRead(read, a, a, before, after) && ReadSucceeded(read)
    requires x == Sent(a, [Pointer(Config), WithShutdown(after.config, mode)], x.status)
    ensures PowerModeWrite(read + [x], a, mode, before, after, Code(x.status))
  {
    assert (read + [x])[..2] == read;
  }

  /** A failed configuration read is a whole ds7505_shut_mode that reports ERROR. */
  lemma PowerModeReadFailed(read: seq<Transfer>, a: bv8, mode: Shutdown, before: Cache, after: Cache)
    requires ConfigRead(read, a, a, before, after) && !ReadSucceeded(read)
    ensures PowerModeWrite(read, a, mode, before, after, ERROR)
  {
    assert read[..ReadPhase(read)] == read;
  }

  /**
   * ds7505_set_TOsor_HYST: one three-byte write of the frame as written; on
   * success the raw count itself is cached.
   */
  predicate ThresholdWriteAsWritten(t: seq<Transfer>, a: bv8, reg: Reg, raw: int, before: Cache, after: Cache, r: int)
    requires InInt16(raw)
    ensures ThresholdWriteAsWritten(t, a, reg, raw, before, after, r) ==>
              |t| == 1 && |t[0].bytes| == 3 && t[0].bytes[1..] == ThresholdFrame(reg, raw)[1..]
              && after.config == before.config && after.temperature == before.temperature
  {
    && |t| == 1 && |t[0].bytes| == 3
    && t[0] == Sent(a, ThresholdFrameAsWritten(t[0].bytes[0], reg, raw), t[0].status)
    && r == Code(t[0].status)
    && after == if t[0].status == 0 then StoreThreshold(before, reg, raw) else before
  }

  /** One write of the as-written frame, and the cache update it allows, make up a whole ds7505_set_TOsor_HYST. */
  lemma ThresholdWriteSteps(x: Transfer, a: bv8, reg: Reg, raw: int, before: Cache, after: Cache, r: int)
    requires InInt16(raw)
    requires x == Sent(a, x.bytes, x.status) && |x.bytes| == 3 && x.bytes == ThresholdFrameAsWritten(x.bytes[0], reg, raw)
    requires r == Code(x.status)
    requires after == if x.status == 0 then StoreThreshold(before, reg, raw) else before
    ensures ThresholdWriteAsWritten([x], a, reg, raw, before, after, r)
  {
  }

  /** The body of ds7505_get_temperature_reg after a read that returned 0: decode the bytes, store them in the field `tempReg` selects. */
  method StoreTemperature(ds: Ds7505, tempReg: Reg, data: seq<bv8>)
    requires |data| == 2
    modifies ds`temperature, ds`tempOs, ds`tempHyst
    ensures ds.Cached() == StoreReading(old(ds.Cached()), tempReg, DecodeCelsius(data[0], data[1]))
  {
    var buf := Signed16(data[0] as int * 256 + data[1] as int);
    var temp := buf as real / 256.0;
    assert temp == DecodeCelsius(data[0], data[1]);
    if tempReg == Temper {
      ds.temperature := temp;
    } else if tempReg == TOs {
      ds.tempOs := temp;
    } else {
      ds.tempHyst := temp;
    }
  }

  method GetTemperatureReg(ds: Ds7505, tempReg: Reg) returns (r: int)
    modifies ds`temperature, ds`tempOs, ds`tempHyst, ds.dev
    ensures old(ds.dev.log) <= ds.dev.log
    ensures var t := ds.dev.log[|old(ds.dev.log)|..];
            TemperatureRead(t, ds.BusAddr(), ds.BusAddr(), tempReg, old(ds.Cached()), ds.Cached()) && r == ReadResult(t)
  {
    ghost var start, before := ds.dev.log, ds.Cached();
    var reg := Pointer(tempReg);
    var w := ds.dev.Write(AddrValue(ds.addr), [reg]);
    ghost var mid := ds.dev.log;
    if w != 0 {
      assert ds.dev.log[|start|..] == [Sent(ds.BusAddr(), [reg], w)];
      PointerWriteFailed(ds.dev.log[|start|..], ds.BusAddr(), ds.BusAddr(), reg, 2);
      return ERROR;
    }
    var s, data := ds.dev.Read(AddrValue(ds.addr), 2);
    TwoAppended(start, mid, ds.dev.log);
    ghost var x, y := mid[|start|], ds.dev.log[|mid|];
    assert x == Sent(ds.BusAddr(), [reg], 0);
    assert y == Received(ds.BusAddr(), 2, data, s);
    if s == 0 {
      StoreTemperature(ds, tempReg, data);
      r := SUCCESS;
    } else {
      r := ERROR;
    }
    TemperatureReadSteps(x, y, ds.BusAddr(), ds.BusAddr(), tempReg, before, ds.Cached());
  }

  /** The `sendData` buffer of the threshold write, filled by its three assignments; element 0 is whatever the fresh buffer held. */
  method ThresholdSendData(reg: Reg, raw: int) returns (frame: seq<bv8>)
    requires InInt16(raw)
    ensures |frame| == 3 && frame == ThresholdFrameAsWritten(frame[0], reg, raw)
  {
    var sendData := new bv8[3];
    sendData[1] := Pointer(reg);
    sendData[1] := HiByte(raw);
    sendData[2] := LoByte(raw);
    frame := sendData[..];
    assert frame == [frame[0], HiByte(raw), LoByte(raw)];
    FrameAsWrittenBytes(frame[0], reg, raw);
  }

  /** The float-to-int16_t conversion is undefined outside the int16_t range, hence the precondition. */
  method SetTOsorHYST(ds: Ds7505, tOS_HYST: Reg, temp: real) returns (r: int)
    requires InInt16(RawOf(temp))
    modifies ds`tempOs, ds`tempHyst, ds.dev
    ensures old(ds.dev.log) <= ds.dev.log
    ensures ThresholdWriteAsWritten(ds.dev.log[|old(ds.dev.log)|..], ds.BusAddr(), tOS_HYST, RawOf(temp),
                                    old(ds.Cached()), ds.Cached(), r)
  {
    ghost var start, before := ds.dev.log, ds.Cached();
    var buff := RawOf(temp);
    var frame := ThresholdSendData(tOS_HYST, buff);
    var w := ds.dev.Write(AddrValue(ds.addr), frame);
    ghost var x := ds.dev.log[|start|];
    assert ds.dev.log[|start|..] == [x] && x == Sent(ds.BusAddr(), frame, w);
    if w == 0 {
      if tOS_HYST == TOs {
        ds.tempOs := buff as real;
      } else {
        ds.tempHyst := buff as real;
      }
      r := SUCCESS;
    } else {
      r := ERROR;
    }
    ThresholdWriteSteps(x, ds.BusAddr(), tOS_HYST, buff, before, ds.Cached(), r);
  }

  method GetConfigReg(ds: Ds7505) returns (r: int)
    modifies ds`config, ds.dev
    ensures old(ds.dev.log) <= ds.dev.log
    ensures var t := ds.dev.log[|old(ds.dev.log)|..];
            ConfigRead(t, ds.BusAddr(), ds.BusAddr(), old(ds.Cached()), ds.Cached()) && r == ReadResult(t)
  {
    ghost var start, before := ds.dev.log, ds.Cached();
    var reg := Pointer(Config);
    var w := ds.dev.Write(AddrValue(ds.addr), [reg]);
    ghost var mid := ds.dev.log;
    if w != 0 {
      assert ds.dev.log[|start|..] == [Sent(ds.BusAddr(), [reg], w)];
      PointerWriteFailed(ds.dev.log[|start|..], ds.BusAddr(), ds.BusAddr(), reg, 1);
      return ERROR;
    }
    var s, config := ds.dev.Read(AddrValue(ds.addr), 1);
    TwoAppended(start, mid, ds.dev.log);
    ghost var x, y := mid[|start|], ds.dev.log[|mid|];
    assert x == Sent(ds.BusAddr(), [reg], 0);
    assert y == Received(ds.BusAddr(), 1, config, s);
    if s == 0 {
      ds.config := config[0];
      ConfigReadSteps(x, y, ds.BusAddr(), ds.BusAddr(), before, ds.Cached());
      return SUCCESS;
    }
    ConfigReadSteps(x, y, ds.BusAddr(), ds.BusAddr(), before, ds.Cached());
    return ERROR;
  }

  /** The `sendData` buffer of ds7505_shut_mode: CONFIG, then the configuration byte with bit 0 set to `mode`. */
  method PowerModeSendData(config: bv8, mode: Shutdown) returns (frame: seq<bv8>)
    ensures frame == [Pointer(Config), WithShutdown(config, mode)]
  {
    var sendData := new bv8[2];
    sendData[0] := Pointer(Config);
    if mode == ActiveConver {
      sendData[1] := config & 0xFE;
    } else {
      sendData[1] := config | 0x01;
    }
    frame := sendData[..];
  }

  method ShutMode(ds: Ds7505, mode: Shutdown) returns (r: int)
    modifies ds`config, ds.dev
    ensures old(ds.dev.log) <= ds.dev.log
    ensures PowerModeWrite(ds.dev.log[|old(ds.dev.log)|..], ds.BusAddr(), mode, old(ds.Cached()), ds.Cached(), r)
  {
    ghost var start := ds.dev.log;
    var s := GetConfigReg(ds);
    ghost var mid := ds.dev.log;
    if s == SUCCESS {
      var frame := PowerModeSendData(ds.config, mode);
      var w := ds.dev.Write(AddrValue(ds.addr), frame);
      LogSplit(start, mid, ds.dev.log);
      PowerModeAfterRead(mid[|start|..], ds.dev.log[|mid|], ds.BusAddr(), mode, old(ds.Cached()), ds.Cached());
      if w == 0 {
        return SUCCESS;
      }
      return ERROR;
    } else {
      PowerModeReadFailed(mid[|start|..], ds.BusAddr(), mode, old(ds.Cached()), ds.Cached());
      return ERROR;
    }
  }

  method GetTemp(ds: Ds7505) returns (r: int)
    modifies ds`temperature, ds`tempOs, ds`tempHyst, ds.dev
    ensures old(ds.dev.log) <= ds.dev.log
    ensures var t := ds.dev.log[|old(ds.dev.log)|..];
            TemperatureRead(t, ds.BusAddr(), ds.BusAddr(), Temper, old(ds.Cached()), ds.Cached()) && r == ReadResult(t)
  {
    r := GetTemperatureReg(ds, Temper);
  }

  method GetTempOS(ds: Ds7505) returns (r: int)
    modifies ds`temperature, ds`tempOs, ds`tempHyst, ds.dev
    ensures old(ds.dev.log) <= ds.dev.log
    ensures var t := ds.dev.log[|old(ds.dev.log)|..];
            TemperatureRead(t, ds.BusAddr(), ds.BusAddr(), TOs, old(ds.Cached()), ds.Cached()) && r == ReadResult(t)
  {
    r := GetTemperatureReg(ds, TOs);
  }

  method GetTempHYST(ds: Ds7505) returns (r: int)
    modifies ds`temperature, ds`tempOs, ds`tempHyst, ds.dev
    ensures old(ds.dev.log) <= ds.dev.log
    ensures var t := ds.dev.log[|old(ds.dev.log)|..];
            TemperatureRead(t, ds.BusAddr(), ds.BusAddr(), THyst, old(ds.Cached()), ds.Cached()) && r == ReadResult(t)
  {
    r := GetTemperatureReg(ds, THyst);
  }

  method SetConfigReg(ds: Ds7505, resolution: Resolution, tolerance: FaultTolerance,
                      polarity: Polarity, mode: ThermostatMode) returns (r: int)
    modifies ds`config, ds.dev
    ensures old(ds.dev.log) <= ds.dev.log
    ensures ConfigWriteAsWritten(ds.dev.log[|old(ds.dev.log)|..], ds.BusAddr(),
                                 PackConfig(resolution, tolerance, polarity, mode), old(ds.Cached()), ds.Cached(), r)
  {
    ghost var start := ds.dev.log;
    var data := new bv8[2];
    data[0] := Pointer(Config);
    data[1] := ResolutionBits(resolution) | FaultToleranceBits(tolerance) | PolarityBits(polarity) | ModeBits(mode);
    var w := ds.dev.Write(AddrValue(ds.addr), data[..]);
    ghost var mid := ds.dev.log;
    if w != 0 {
      r := GetConfigReg(ds);
      assert ds.dev.log[|start|..][0] == mid[|start|];
      assert ds.dev.log[|start|..][1..] == ds.dev.log[|mid|..];
      return r;
    }
    return ERROR;
  }

  method SetTempOS(ds: Ds7505, tempOS: real) returns (r: int)
    requires InInt16(RawOf(tempOS))
    modifies ds`tempOs, ds`tempHyst, ds.dev
    ensures old(ds.dev.log) <= ds.dev.log
    ensures ThresholdWriteAsWritten(ds.dev.log[|old(ds.dev.log)|..], ds.BusAddr(), TOs, RawOf(tempOS),
                                    old(ds.Cached()), ds.Cached(), r)
  {
    r := SetTOsorHYST(ds, TOs, tempOS);
  }

  method SetTempHYST(ds: Ds7505, tempHYST: real) returns (r: int)
    requires InInt16(RawOf(tempHYST))
    modifies ds`tempOs, ds`tempHyst, ds.dev
    ensures old(ds.dev.log) <= ds.dev.log
    ensures ThresholdWriteAsWritten(ds.dev.log[|old(ds.dev.log)|..], ds.BusAddr(), THyst, RawOf(tempHYST),
                                    old(ds.Cached()), ds.Cached(), r)
  {
    r := SetTOsorHYST(ds, THyst, tempHYST);
  }

  method CopySRAMtoEPRROM(ds: Ds7505) returns (r: int)
    modifies ds.dev
    ensures old(ds.dev.log) <= ds.dev.log
    ensures var t := ds.dev.log[|old(ds.dev.log)|..];
            SingleWrite(t, ds.BusAddr(), [Opcode(CopyData)]) && r == Code(t[0].status)
  {
    var command := Opcode(CopyData);
    var w := ds.dev.Write(AddrValue(ds.addr), [command]);
    if w == 0 {
      return SUCCESS;
    }
    return ERROR;
  }

  /** The reset is sent and the status of `i2c_write` is dropped. */
  method SoftwarePOR(ds: Ds7505)
    modifies ds.dev
    ensures old(ds.dev.log) <= ds.dev.log
    ensures SingleWrite(ds.dev.log[|old(ds.dev.log)|..], ds.BusAddr(), [Opcode(SoftwarePor)])
  {
    var command := Opcode(SoftwarePor);
    var _ := ds.dev.Write(AddrValue(ds.addr), [command]);
  }

  method RecallData(ds: Ds7505) returns (r: int)
    modifies ds.dev
    ensures old(ds.dev.log) <= ds.dev.log
    ensures var t := ds.dev.log[|old(ds.dev.log)|..];
            SingleWrite(t, ds.BusAddr(), [Opcode(Command.RecallData)]) && r == Code(t[0].status)
  {
    var command := Opcode(Command.RecallData);
    var w := ds.dev.Write(AddrValue(ds.addr), [command]);
    if w == 0 {
      return SUCCESS;
    }
    return ERROR;
  }

  /** True only when the configuration read succeeded and its bit 7 is set; a failed read reads as not busy. */
  method MemoryBusy(ds: Ds7505) returns (busy: bool)
    modifies ds`config, ds.dev
    ensures old(ds.dev.log) <= ds.dev.log
    ensures var t := ds.dev.log[|old(ds.dev.log)|..];
            ConfigRead(t, ds.BusAddr(), ds.BusAddr(), old(ds.Cached()), ds.Cached())
            && busy == (ReadSucceeded(t) && IsMemoryBusy(ds.config))
  {
    var s := GetConfigReg(ds);
    if s == SUCCESS {
      var temp := ds.config & WRITE_IN_PROGRESS;
      if temp == WRITE_IN_PROGRESS {
        return true;
      }
    }
    return false;
  }

  method Shutdown(ds: Ds7505) returns (r: int)
    modifies ds`config, ds.dev
    ensures old(ds.dev.log) <= ds.dev.log
    ensures PowerModeWrite(ds.dev.log[|old(ds.dev.log)|..], ds.BusAddr(), ShutdownMode, old(ds.Cached()), ds.Cached(), r)
  {
    r := ShutMode(ds, ShutdownMode);
  }

  method WakeUp(ds: Ds7505) returns (r: int)
    modifies ds`config, ds.dev
    ensures old(ds.dev.log) <= ds.dev.log
    ensures PowerModeWrite(ds.dev.log[|old(ds.dev.log)|..], ds.BusAddr(), ActiveConver, old(ds.Cached()), ds.Cached(), r)
  {
    r := ShutMode(ds, ActiveConver);
  }
}
