/**
 * The I2C transport both drivers call. The transport is foreign code: here it
 * is a bus whose every transaction may succeed or fail and, for a read, may
 * return any bytes. Each transaction is appended to a log together with the
 * status it returned, so that a driver's contract can say exactly what it put
 * on the wire and how it reacted to each answer.
 */
module I2C {

  /** One bus transaction: the address it went to, the bytes moved, the status returned (0 is success). */
  datatype Transfer =
    | Sent(addr: bv8, bytes: seq<bv8>, status: int)
    | Received(addr: bv8, len: nat, bytes: seq<bv8>, status: int)

  class Bus {
    /** Every transaction issued so far, oldest first. */
    var log: seq<Transfer>

    constructor ()
      ensures log == []
    {
      log := [];
    }

    /** Writes `bytes` to the device at `addr`; the status is whatever the bus reports. */
    method Write(addr: bv8, bytes: seq<bv8>) returns (status: int)
      modifies this
      ensures log == old(log) + [Sent(addr, bytes, status)]
    {
      status :| true;
      log := log + [Sent(addr, bytes, status)];
    }

    /** Reads `len` bytes from the device at `addr`; both the status and the bytes come from the device. */
    method Read(addr: bv8, len: nat) returns (status: int, bytes: seq<bv8>)
      modifies this
      ensures |bytes| == len
      ensures log == old(log) + [Received(addr, len, bytes, status)]
    {
      assert |seq(len, _ => 0 as bv8)| == len;
      status, bytes :| |bytes| == len;
      log := log + [Received(addr, len, bytes, status)];
    }
  }

  /** The transfers since `a` are those up to `b` followed by those after `b`. */
  lemma LogSplit(a: seq<Transfer>, b: seq<Transfer>, c: seq<Transfer>)
    requires a <= b <= c
    ensures c[|a|..] == b[|a|..] + c[|b|..]
    ensures c[|a|..][..|b| - |a|] == b[|a|..]
  {
  }

  /** Two transfers logged one after the other since `a` are the whole of the log since `a`. */
  lemma TwoAppended(a: seq<Transfer>, b: seq<Transfer>, c: seq<Transfer>)
    requires a <= b <= c && |b| == |a| + 1 && |c| == |b| + 1
    ensures c[|a|..] == [b[|a|], c[|b|]]
  {
    LogSplit(a, b, c);
  }

  /** `t` is one write of `bytes` to `waddr`, and nothing else. */
  predicate SingleWrite(t: seq<Transfer>, waddr: bv8, bytes: seq<bv8>)
  {
    |t| == 1 && t[0] == Sent(waddr, bytes, t[0].status)
  }

  /**
   * The transfers of a register read: the pointer byte is written and, only
   * if that write succeeded, `n` bytes are read back.
   */
  predicate RegisterRead(t: seq<Transfer>, waddr: bv8, raddr: bv8, pointer: bv8, n: nat)
    ensures RegisterRead(t, waddr, raddr, pointer, n) ==>
              1 <= |t| <= 2 && t[0].Sent? && t[0].addr == waddr && (ReadSucceeded(t) ==> t[1].Received? && t[1].addr == raddr && |t[1].bytes| == n)
  {
    && 1 <= |t| <= 2
    && t[0] == Sent(waddr, [pointer], t[0].status)
    && (|t| == 2 <==> t[0].status == 0)
    && (|t| == 2 ==> t[1] == Received(raddr, n, t[1].bytes, t[1].status) && |t[1].bytes| == n)
  }

  /** Both steps of a register read succeeded. */
  predicate ReadSucceeded(t: seq<Transfer>)
  {
    |t| == 2 && t[0].status == 0 && t[1].status == 0
  }

  /** How many of the transfers in `t` belong to the register read that starts it. */
  function ReadPhase(t: seq<Transfer>): nat
  {
    if |t| > 0 && t[0].status == 0 then 2 else 1
  }
}
