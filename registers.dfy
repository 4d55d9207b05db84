/**
 * The DS7505 register map and the enumerations both driver headers declare:
 * register pointers, the configuration-register fields, the shutdown and
 * memory-busy bits and the command opcodes. The mbed header and the Zephyr
 * header give every one of these the same value, so they are defined once here.
 */
module Registers {

  /** Return codes of every driver operation. */
  const SUCCESS: int := 0
  const ERROR: int := -1

  /** The four registers a pointer byte can select. */
  datatype Reg = Temper | Config | THyst | TOs

  function Pointer(r: Reg): (p: bv8)
    ensures p as int < 4
  {
    match r
    case Temper => 0x00
    case Config => 0x01
    case THyst => 0x02
    case TOs => 0x03
  }

  /** Conversion resolution, bits 6-5 of the configuration byte. */
  datatype Resolution = Bits9 | Bits10 | Bits11 | Bits12

  function ResolutionBits(r: Resolution): (b: bv8)
    ensures b & 0x9F == 0
  {
    match r
    case Bits9 => 0x00 << 5
    case Bits10 => 0x01 << 5
    case Bits11 => 0x02 << 5
    case Bits12 => 0x03 << 5
  }

  /** Number of consecutive out-of-limit conversions before the output trips, bits 4-3. */
  datatype FaultTolerance = Trig1 | Trig2 | Trig4 | Trig6

  function FaultToleranceBits(t: FaultTolerance): (b: bv8)
    ensures b & 0xE7 == 0
  {
    match t
    case Trig1 => 0x00 << 3
    case Trig2 => 0x01 << 3
    case Trig4 => 0x02 << 3
    case Trig6 => 0x03 << 3
  }

  /** Thermostat output polarity, bit 2. */
  datatype Polarity = ActiveLow | ActiveHigh

  function PolarityBits(p: Polarity): (b: bv8)
    ensures b & 0xFB == 0
  {
    match p
    case ActiveLow => 0x00 << 2
    case ActiveHigh => 0x01 << 2
  }

  /** Thermostat mode, bit 1. */
  datatype ThermostatMode = Comparator | Interrupt

  function ModeBits(m: ThermostatMode): (b: bv8)
    ensures b & 0xFD == 0
  {
    match m
    case Comparator => 0x00 << 1
    case Interrupt => 0x01 << 1
  }

  /** Power state, bit 0. */
  datatype Shutdown = ActiveConver | ShutdownMode

  function ShutdownBits(s: Shutdown): (b: bv8)
    ensures b & 0xFE == 0
  {
    match s
    case ActiveConver => 0x00
    case ShutdownMode => 0x01
  }

  /** Non-volatile memory status, bit 7 (read only). */
  const MEM_NOT_BUSY: bv8 := 0x00 << 7
  const WRITE_IN_PROGRESS: bv8 := 0x01 << 7

  /** The single-byte commands; they are sent instead of a register pointer. */
  datatype Command = RecallData | CopyData | SoftwarePor

  /** A command byte is never a register pointer, so the device cannot take one for the other. */
  function Opcode(c: Command): (op: bv8)
    ensures forall r: Reg :: op != Pointer(r)
  {
    match c
    case RecallData => 0xB8
    case CopyData => 0x48
    case SoftwarePor => 0x54
  }

  /** The memory-busy flag is bit 7 alone and the shutdown flag bit 0 alone. */
  lemma FlagBits()
    ensures WRITE_IN_PROGRESS == 0x80 && MEM_NOT_BUSY == 0
    ensures ShutdownBits(ShutdownMode) == 0x01 && ShutdownBits(ActiveConver) == 0
  {
  }

  /** Every value of the four configurable fields stays out of the other fields and out of bits 0 and 7. */
  lemma FieldsDisjoint(r: Resolution, t: FaultTolerance, p: Polarity, m: ThermostatMode)
    ensures ResolutionBits(r) & FaultToleranceBits(t) == 0
    ensures ResolutionBits(r) & PolarityBits(p) == 0
    ensures ResolutionBits(r) & ModeBits(m) == 0
    ensures FaultToleranceBits(t) & PolarityBits(p) == 0
    ensures FaultToleranceBits(t) & ModeBits(m) == 0
    ensures PolarityBits(p) & ModeBits(m) == 0
    ensures (ResolutionBits(r) | FaultToleranceBits(t) | PolarityBits(p) | ModeBits(m)) & (WRITE_IN_PROGRESS | ShutdownBits(ShutdownMode)) == 0
  {
  }

  /** Each field's encoding is one-to-one, so a field value can be recovered from its bits. */
  lemma FieldEncodingsInjective(r1: Resolution, r2: Resolution, t1: FaultTolerance, t2: FaultTolerance,
                                p1: Polarity, p2: Polarity, m1: ThermostatMode, m2: ThermostatMode)
    ensures ResolutionBits(r1) == ResolutionBits(r2) ==> r1 == r2
    ensures FaultToleranceBits(t1) == FaultToleranceBits(t2) ==> t1 == t2
    ensures PolarityBits(p1) == PolarityBits(p2) ==> p1 == p2
    ensures ModeBits(m1) == ModeBits(m2) ==> m1 == m2
  {
  }

  /** The three opcodes are different from each other. */
  lemma OpcodesDistinct(c1: Command, c2: Command)
    ensures Opcode(c1) == Opcode(c2) ==> c1 == c2
  {
  }

  /** Pointers are one-to-one: a pointer byte selects exactly one register. */
  lemma PointersDistinct(r1: Reg, r2: Reg)
    ensures Pointer(r1) == Pointer(r2) ==> r1 == r2
  {
  }
}
