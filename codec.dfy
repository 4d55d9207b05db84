/**
 * Register codec of the DS7505: the two-byte fixed-point temperature format
 * (a signed 16-bit count of 1/256 degree Celsius, high byte first), the packing
 * of the configuration byte, its shutdown bit and its memory-busy bit.
 * Both drivers compute these with the same expressions.
 */
module Codec {
  import opened Registers

  predicate InInt16(v: int) {
    -0x8000 <= v < 0x8000
  }

  /** The conversion of 0..65535 to int16_t: two's-complement wrap-around. */
  function Signed16(u: int): (v: int)
    requires 0 <= u < 0x1_0000
    ensures InInt16(v)
    ensures v == u || v == u - 0x1_0000
  {
    if u < 0x8000 then u else u - 0x1_0000
  }

  /** `(hi << 8) | lo` stored into an int16_t: the raw count in 1/256 degree. */
  function DecodeRaw(hi: bv8, lo: bv8): (raw: int)
    ensures InInt16(raw)
    ensures raw < 0 <==> hi >= 0x80
  {
    Signed16(hi as int * 256 + lo as int)
  }

  /** `buf / 256.0`: the register's value in degrees Celsius. */
  function DecodeCelsius(hi: bv8, lo: bv8): (t: real)
    ensures -128.0 <= t < 128.0
    ensures t * 256.0 == DecodeRaw(hi, lo) as real
  {
    DecodeRaw(hi, lo) as real / 256.0
  }

  /** Conversion of a floating value to an integer type: rounds toward zero. */
  function Trunc(x: real): (n: int)
    ensures 0.0 <= x ==> 0 <= n && n as real <= x < n as real + 1.0
    ensures x < 0.0 ==> n <= 0 && n as real - 1.0 < x <= n as real
  {
    if x >= 0.0 then x.Floor else -((-x).Floor)
  }

  /** `int16_t buff = temp * 256`, before the range check the caller owes: the count rounded toward zero. */
  function RawOf(temp: real): (raw: int)
    ensures 0.0 <= temp ==> 0 <= raw && raw as real <= temp * 256.0 < raw as real + 1.0
    ensures temp < 0.0 ==> raw <= 0 && raw as real - 1.0 < temp * 256.0 <= raw as real
  {
    Trunc(temp * 256.0)
  }

  /** The 16-bit pattern of an int16_t, read as unsigned (two's complement). */
  function Unsigned16(raw: int): (u: int)
    requires InInt16(raw)
    ensures 0 <= u < 0x1_0000
  {
    if raw < 0 then raw + 0x1_0000 else raw
  }

  /** `(buff & 0xFF00) >> 8` of a sign-extended int16_t: bits 15-8 of its pattern. */
  function HiByte(raw: int): (h: bv8)
    requires InInt16(raw)
    ensures h as int * 256 + LoByte(raw) as int == Unsigned16(raw)
    ensures h >= 0x80 <==> raw < 0
  {
    ByteValue(Unsigned16(raw) / 256);
    ByteValue(Unsigned16(raw) % 256);
    (Unsigned16(raw) / 256) as bv8
  }

  /** `buff & 0xFF`: bits 7-0 of the pattern. */
  function LoByte(raw: int): (l: bv8)
    requires InInt16(raw)
    ensures l as int == raw % 256
  {
    ByteValue(Unsigned16(raw) % 256);
    (Unsigned16(raw) % 256) as bv8
  }

  /** Splitting a raw count into its two bytes and decoding them gives the count back. */
  lemma DecodeEncode(raw: int)
    requires InInt16(raw)
    ensures DecodeRaw(HiByte(raw), LoByte(raw)) == raw
  {
    var u := Unsigned16(raw);
    ByteValue(u / 256);
    ByteValue(u % 256);
    assert HiByte(raw) as int * 256 + LoByte(raw) as int == u;
  }

  lemma DivModByte(h: int, l: int)
    requires 0 <= l < 256
    ensures (h * 256 + l) / 256 == h && (h * 256 + l) % 256 == l
  {
  }

  lemma BytePattern(b: bv8)
    ensures (b as int) as bv8 == b
  {
  }

  /**
   * The byte whose value is `x`, counted up from zero one increment at a time.
   * It models nothing in the driver: it only gives the solver a stable route to
   * the integer value of a byte conversion, for ByteValue.
   */
  function ByteOf(x: int): (b: bv8)
    requires 0 <= x < 256
    ensures b as int == x
  {
    if x == 0 then 0 else ByteOf(x - 1) + 1
  }

  lemma ByteValue(x: int)
    requires 0 <= x < 256
    ensures (x as bv8) as int == x
  {
    assert ByteOf(x) == x as bv8;
  }

  /** Decoding two bytes and splitting the count again gives the same two bytes. */
  lemma EncodeDecode(hi: bv8, lo: bv8)
    ensures HiByte(DecodeRaw(hi, lo)) == hi
    ensures LoByte(DecodeRaw(hi, lo)) == lo
  {
    var h, l := hi as int, lo as int;
    var raw := DecodeRaw(hi, lo);
    PatternOfDecoded(hi, lo);
    DivModByte(h, l);
    BytesOfPattern(raw, h, l);
    BytePattern(hi);
    BytePattern(lo);
  }

  lemma PatternOfDecoded(hi: bv8, lo: bv8)
    ensures Unsigned16(DecodeRaw(hi, lo)) == hi as int * 256 + lo as int
  {
  }

  lemma BytesOfPattern(raw: int, h: int, l: int)
    requires InInt16(raw)
    requires Unsigned16(raw) / 256 == h && Unsigned16(raw) % 256 == l
    ensures HiByte(raw) == h as bv8 && LoByte(raw) == l as bv8
  {
  }

  /** A decoded temperature, encoded again, yields the same raw count and so the same bytes. */
  lemma CelsiusRoundTrip(hi: bv8, lo: bv8)
    ensures RawOf(DecodeCelsius(hi, lo)) == DecodeRaw(hi, lo)
    ensures HiByte(RawOf(DecodeCelsius(hi, lo))) == hi && LoByte(RawOf(DecodeCelsius(hi, lo))) == lo
  {
    var raw := DecodeRaw(hi, lo);
    assert DecodeCelsius(hi, lo) * 256.0 == raw as real;
    TruncOfInteger(raw);
    EncodeDecode(hi, lo);
  }

  lemma TruncOfInteger(n: int)
    ensures Trunc(n as real) == n
  {
    if n < 0 {
      assert (-(n as real)).Floor == -n;
    }
  }

  /**
   * Encoding then decoding loses at most the part below 1/256 degree, and it
   * rounds toward zero; a value that is a whole number of 1/256 steps comes back exactly.
   */
  lemma EncodeWithinResolution(temp: real)
    requires InInt16(RawOf(temp))
    ensures var back := DecodeCelsius(HiByte(RawOf(temp)), LoByte(RawOf(temp)));
            (0.0 <= temp ==> 0.0 <= back <= temp < back + 1.0 / 256.0) &&
            (temp < 0.0 ==> back - 1.0 / 256.0 < temp <= back <= 0.0)
    ensures (temp * 256.0).Floor as real == temp * 256.0 ==>
            DecodeCelsius(HiByte(RawOf(temp)), LoByte(RawOf(temp))) == temp
  {
    var raw := RawOf(temp);
    DecodeEncode(raw);
    var back := DecodeCelsius(HiByte(raw), LoByte(raw));
    assert back * 256.0 == raw as real;
    if (temp * 256.0).Floor as real == temp * 256.0 {
      TruncOfInteger((temp * 256.0).Floor);
    }
  }

  /** Sample register values, including the most negative count. */
  lemma DecodeExamples()
    ensures DecodeCelsius(0x1C, 0x00) == 28.0
    ensures DecodeCelsius(0x00, 0x80) == 0.5
    ensures DecodeCelsius(0xFF, 0x80) == -0.5
    ensures DecodeCelsius(0x80, 0x00) == -128.0
  {
  }

  /** 29.0 degrees becomes the raw count 0x1D00, sent as the bytes 0x1D, 0x00. */
  lemma EncodeExample()
    ensures RawOf(29.0) == 0x1D00
    ensures HiByte(0x1D00) == 0x1D && LoByte(0x1D00) == 0x00
    ensures RawOf(-0.5) == -128 && HiByte(-128) == 0xFF && LoByte(-128) == 0x80
  {
    TruncOfInteger(0x1D00);
    TruncOfInteger(-128);
  }

  /** `resolution | tolerance | polarity | mode`: the byte a configuration write sends. */
  function PackConfig(r: Resolution, t: FaultTolerance, p: Polarity, m: ThermostatMode): (b: bv8)
    ensures b & (WRITE_IN_PROGRESS | ShutdownBits(ShutdownMode)) == 0
  {
    ResolutionBits(r) | FaultToleranceBits(t) | PolarityBits(p) | ModeBits(m)
  }

  /** The field values a configuration byte holds; the inverse of PackConfig. */
  function ResolutionOf(b: bv8): Resolution
  {
    var v := (b >> 5) & 0x03;
    if v == 0 then Bits9 else if v == 1 then Bits10 else if v == 2 then Bits11 else Bits12
  }

  function FaultToleranceOf(b: bv8): FaultTolerance
  {
    var v := (b >> 3) & 0x03;
    if v == 0 then Trig1 else if v == 1 then Trig2 else if v == 2 then Trig4 else Trig6
  }

  function PolarityOf(b: bv8): Polarity
  {
    if b & 0x04 == 0 then ActiveLow else ActiveHigh
  }

  function ModeOf(b: bv8): ThermostatMode
  {
    if b & 0x02 == 0 then Comparator else Interrupt
  }

  /** Every field of a packed byte reads back as the value packed into it. */
  lemma UnpackPack(r: Resolution, t: FaultTolerance, p: Polarity, m: ThermostatMode)
    ensures ResolutionOf(PackConfig(r, t, p, m)) == r
    ensures FaultToleranceOf(PackConfig(r, t, p, m)) == t
    ensures PolarityOf(PackConfig(r, t, p, m)) == p
    ensures ModeOf(PackConfig(r, t, p, m)) == m
  {
  }

  /** Every byte with bits 0 and 7 clear is the packing of the fields it holds. */
  lemma PackUnpack(b: bv8)
    requires b & 0x81 == 0
    ensures PackConfig(ResolutionOf(b), FaultToleranceOf(b), PolarityOf(b), ModeOf(b)) == b
  {
  }

  /** The default arguments of the configuration write compose to 0x00. */
  lemma DefaultConfigIsZero()
    ensures PackConfig(Bits9, Trig1, ActiveLow, Comparator) == 0x00
  {
  }

  /** 12-bit resolution in interrupt mode, all else at its default, composes to 0x62. */
  lemma Bits12InterruptIs0x62()
    ensures PackConfig(Bits12, Trig1, ActiveLow, Interrupt) == 0x62
  {
  }

  /** `config & 0xFE` for ACTIVE_CONVER, `config | 0x01` for SHUTDOWN. */
  function WithShutdown(config: bv8, mode: Shutdown): (b: bv8)
    ensures b & 0xFE == config & 0xFE
    ensures b & 0x01 == ShutdownBits(mode)
  {
    if mode == ActiveConver then config & 0xFE else config | 0x01
  }

  /** The shutdown bit reads as the power mode last written. */
  function PowerModeOf(b: bv8): Shutdown
  {
    if b & 0x01 == 0 then ActiveConver else ShutdownMode
  }

  lemma ShutdownExample()
    ensures WithShutdown(0x62, ShutdownMode) == 0x63
    ensures WithShutdown(0x63, ActiveConver) == 0x62
  {
  }

  /** Changing the power mode twice is the same as changing it once to the second mode. */
  lemma ShutdownLastWins(config: bv8, m1: Shutdown, m2: Shutdown)
    ensures WithShutdown(WithShutdown(config, m1), m2) == WithShutdown(config, m2)
    ensures PowerModeOf(WithShutdown(config, m2)) == m2
  {
  }

  /** Setting the mode a byte already holds changes nothing, so switching back restores the byte. */
  lemma ShutdownRestores(config: bv8, m: Shutdown)
    ensures WithShutdown(config, PowerModeOf(config)) == config
    ensures WithShutdown(WithShutdown(config, m), PowerModeOf(config)) == config
  {
  }

  /** `(config & WRITE_IN_PROGRESS) == WRITE_IN_PROGRESS`. */
  predicate IsMemoryBusy(config: bv8)
    ensures IsMemoryBusy(config) <==> config >= 0x80
  {
    config & WRITE_IN_PROGRESS == WRITE_IN_PROGRESS
  }

  /** Packing never sets the busy bit and the power-mode change does not touch it. */
  lemma MemoryBusyBit(config: bv8, r: Resolution, t: FaultTolerance, p: Polarity, m: ThermostatMode, s: Shutdown)
    ensures !IsMemoryBusy(PackConfig(r, t, p, m))
    ensures IsMemoryBusy(WithShutdown(config, s)) == IsMemoryBusy(config)
  {
  }

  /** The frame a threshold write is meant to send: the register pointer, then the raw count high byte first. */
  function ThresholdFrame(reg: Reg, raw: int): (f: seq<bv8>)
    requires InInt16(raw)
    ensures |f| == 3 && f[0] == Pointer(reg)
    ensures DecodeRaw(f[1], f[2]) == raw
  {
    DecodeEncode(raw);
    [Pointer(reg), HiByte(raw), LoByte(raw)]
  }

  /** Writing 29.0 degrees to T_OS sends 0x03, 0x1D, 0x00. */
  lemma ThresholdFrameExample()
    ensures ThresholdFrame(TOs, RawOf(29.0)) == [0x03, 0x1D, 0x00]
  {
    EncodeExample();
  }
}
