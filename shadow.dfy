/** The register shadow of the R820T and the bytes that reach the bus.

    The driver keeps a mirror (`regs`, r820t.rs:234) of the 30 registers from 0x05
    to 0x22 and computes every partial update from the mirror (`write_reg_mask`)
    instead of reading the register back; its only reads fetch the status bytes,
    starting at register 0x00. Every write is stored in the
    mirror first and then sent as I2C messages of one address byte and at most
    seven data bytes (`write_regs`, `shadow_store`).

    A sequence of register operations (`Op`) is the vocabulary in which the tuner's
    operations are specified: `RunShadow` gives the mirror after the operations and
    `RunTrace` the transport requests they issue, in order. */
module Shadow {
  import opened Transport
  import opened Bits

  const NumRegs := 30        // NUM_REGS
  const ShadowStart := 5     // REG_SHADOW_START
  const MaxI2cMsgLen := 8    // MAX_I2C_MSG_LEN, address byte included
  const I2cAddr := 0x34      // R820T_I2C_ADDR

  /** A write of `len` bytes starting at register `reg` lies inside the mirrored
      window [ShadowStart, ShadowStart + NumRegs). */
  predicate InWindow(reg: int, len: int)
  {
    ShadowStart <= reg && 0 <= len && reg - ShadowStart + len <= NumRegs
  }

  /** The byte `write_reg_mask` sends: the bits under `mask` from `val`, the others from `cached`. */
  function MaskedByte(cached: bv8, val: bv8, mask: bv8): (b: bv8)
    ensures b & mask == val & mask
    ensures b & !mask == cached & !mask
  {
    (cached & !mask) | (val & mask)
  }

  /** The mirror after `shadow_store(reg, data)`: the data lands at offsets
      reg - ShadowStart onwards, every other register keeps its byte. */
  function Store(shadow: seq<bv8>, reg: int, data: seq<bv8>): (s: seq<bv8>)
    requires |shadow| == NumRegs && InWindow(reg, |data|)
    ensures |s| == NumRegs
    ensures s[reg - ShadowStart..reg - ShadowStart + |data|] == data
    ensures forall i :: 0 <= i < NumRegs && !(reg - ShadowStart <= i < reg - ShadowStart + |data|) ==>
      s[i] == shadow[i]
  {
    var off := reg - ShadowStart;
    var s := seq(NumRegs, i requires 0 <= i < NumRegs =>
      if off <= i < off + |data| then data[i - off] else shadow[i]);
    assert s[off..off + |data|] == data;
    s
  }

  /** The mirror after `write_reg_mask(reg, val, mask)`. */
  function MaskedStore(shadow: seq<bv8>, reg: int, val: bv8, mask: bv8): (s: seq<bv8>)
    requires |shadow| == NumRegs && InWindow(reg, 1)
    ensures |s| == NumRegs
    ensures s[reg - ShadowStart] == MaskedByte(shadow[reg - ShadowStart], val, mask)
    ensures forall i :: 0 <= i < NumRegs && i != reg - ShadowStart ==> s[i] == shadow[i]
  {
    Store(shadow, reg, [MaskedByte(shadow[reg - ShadowStart], val, mask)])
  }

  /** Writing the same value under the same mask a second time changes nothing. */
  lemma MaskedStoreIdempotent(shadow: seq<bv8>, reg: int, val: bv8, mask: bv8)
    requires |shadow| == NumRegs && InWindow(reg, 1)
    ensures MaskedStore(MaskedStore(shadow, reg, val, mask), reg, val, mask) == MaskedStore(shadow, reg, val, mask)
  {
    var once := MaskedStore(shadow, reg, val, mask);
    var twice := MaskedStore(once, reg, val, mask);
    var k := reg - ShadowStart;
    assert twice[k] == once[k] by {
      assert twice[k] == MaskedByte(once[k], val, mask);
      assert once[k] == MaskedByte(shadow[k], val, mask);
    }
    assert forall i :: 0 <= i < NumRegs ==> twice[i] == once[i];
  }

  // ---------------------------------------------------------------- I2C messages

  /** The number of data bytes in the next message when `len` bytes remain. */
  function ChunkSize(len: nat): (n: nat)
    ensures n <= len && n <= MaxI2cMsgLen - 1
    ensures 0 < len ==> 0 < n
  {
    if len > MaxI2cMsgLen - 1 then MaxI2cMsgLen - 1 else len
  }

  /** The messages `write_regs(reg, data)` sends: each is the address of its first
      register followed by the next chunk of data, until no data is left. Every one
      is a write to the tuner that fits the bridge's message limit. */
  function Messages(reg: nat, data: seq<bv8>): (r: seq<Event>)
    requires reg + |data| <= 256
    ensures forall k :: 0 <= k < |r| ==>
      r[k].I2cWrite? && r[k].addr == I2cAddr && 2 <= |r[k].bytes| <= MaxI2cMsgLen
    decreases |data|
  {
    if |data| == 0 then []
    else
      var n := ChunkSize(|data|);
      [I2cWrite(I2cAddr, [reg as bv8] + data[..n])] + Messages(reg + n, data[n..])
  }

  /** Sending the first chunk, then the messages for the rest, extends a log exactly
      as the messages for the whole data do. */
  lemma MessagesFirst(log: seq<Event>, reg: nat, data: seq<bv8>, n: nat)
    requires reg + |data| <= 256 && 0 < |data| && n == ChunkSize(|data|)
    ensures (log + [I2cWrite(I2cAddr, [reg as bv8] + data[..n])]) + Messages(reg + n, data[n..])
            == log + Messages(reg, data)
  {
  }

  /** The same step from offset `i` of the data: the chunk sent from there, then the
      messages for what follows it, stand for the messages of data[i..]. */
  lemma MessagesAdvance(log: seq<Event>, reg: nat, data: seq<bv8>, i: nat, at: nat, size: nat)
    requires reg + |data| <= 256 && i < |data| && at == reg + i && size == ChunkSize(|data| - i)
    ensures i + size <= |data|
    ensures (log + [I2cWrite(I2cAddr, [at as bv8] + data[i..i + size])]) + Messages(at + size, data[i + size..])
            == log + Messages(at, data[i..])
  {
    var rest := data[i..];
    assert rest[..size] == data[i..i + size];
    assert rest[size..] == data[i + size..];
    MessagesFirst(log, at, rest, size);
  }

  /** The data bytes carried by a sequence of I2C writes: each message less its address byte. */
  function Payload(events: seq<Event>): seq<bv8>
  {
    if events == [] then []
    else
      var data := match events[0]
        case I2cWrite(_, bytes) => if |bytes| == 0 then [] else bytes[1..]
        case _ => [];
      data + Payload(events[1..])
  }

  lemma {:induction false} PayloadAppend(a: seq<Event>, b: seq<Event>)
    ensures Payload(a + b) == Payload(a) + Payload(b)
    decreases |a|
  {
    if a == [] {
      assert a + b == b;
    } else {
      assert (a + b)[1..] == a[1..] + b;
      PayloadAppend(a[1..], b);
    }
  }

  /** The data of the transmitted chunks, concatenated in order, is exactly the data written. */
  lemma {:induction false} MessagesPayload(reg: nat, data: seq<bv8>)
    requires reg + |data| <= 256
    ensures Payload(Messages(reg, data)) == data
    decreases |data|
  {
    if |data| > 0 {
      var n := ChunkSize(|data|);
      assert data[..n] + data[n..] == data;
      MessagesPayload(reg + n, data[n..]);
      PayloadFirst(reg, data);
    }
  }

  /** The first message carries the first chunk. */
  lemma PayloadFirst(reg: nat, data: seq<bv8>)
    requires reg + |data| <= 256 && 0 < |data|
    ensures var n := ChunkSize(|data|);
      Payload(Messages(reg, data)) == data[..n] + Payload(Messages(reg + n, data[n..]))
  {
    var n := ChunkSize(|data|);
    var head := I2cWrite(I2cAddr, [reg as bv8] + data[..n]);
    PayloadAppend([head], Messages(reg + n, data[n..]));
    assert Payload([head]) == data[..n] by {
      assert head.bytes[1..] == data[..n];
      assert Payload([head]) == head.bytes[1..] + Payload([]);
    }
  }

  /** One message per started group of seven data bytes. */
  lemma {:induction false} MessagesCount(reg: nat, data: seq<bv8>)
    requires reg + |data| <= 256
    ensures |Messages(reg, data)| == (|data| + MaxI2cMsgLen - 2) / (MaxI2cMsgLen - 1)
    decreases |data|
  {
    if |data| > 0 {
      MessagesCount(reg + ChunkSize(|data|), data[ChunkSize(|data|)..]);
    }
  }

  /** Message k of `write_regs(reg, data)`: it goes to the tuner, carries an address
      byte and one to seven data bytes (never more than MAX_I2C_MSG_LEN bytes), and its
      address byte is the first register plus the number of data bytes sent before it. */
  lemma {:induction false} MessageAt(reg: nat, data: seq<bv8>, k: nat)
    requires reg + |data| <= 256 && k < |Messages(reg, data)|
    ensures Messages(reg, data)[k].I2cWrite? && Messages(reg, data)[k].addr == I2cAddr
    ensures 2 <= |Messages(reg, data)[k].bytes| <= MaxI2cMsgLen
    ensures |Payload(Messages(reg, data)[..k])| < |data|
    ensures Messages(reg, data)[k].bytes[0] == (reg + |Payload(Messages(reg, data)[..k])|) as bv8
    decreases |data|
  {
    var n := ChunkSize(|data|);
    if k == 0 {
      assert Messages(reg, data)[..k] == [];
      assert Payload(Messages(reg, data)[..k]) == [];
    } else {
      MessageAt(reg + n, data[n..], k - 1);
      PayloadAfterHead(reg, data, k);
    }
  }

  /** Message k > 0 is message k - 1 of the rest, and the data before it is the first
      chunk plus the data before message k - 1 of the rest. */
  lemma PayloadAfterHead(reg: nat, data: seq<bv8>, k: nat)
    requires reg + |data| <= 256 && 0 < k < |Messages(reg, data)|
    ensures var n := ChunkSize(|data|);
      && Messages(reg, data)[k] == Messages(reg + n, data[n..])[k - 1]
      && |Payload(Messages(reg, data)[..k])| == n + |Payload(Messages(reg + n, data[n..])[..k - 1])|
  {
    var ms := Messages(reg, data);
    var n := ChunkSize(|data|);
    var head := I2cWrite(I2cAddr, [reg as bv8] + data[..n]);
    var rest := Messages(reg + n, data[n..]);
    assert ms == [head] + rest;
    assert ms[..k] == [head] + rest[..k - 1];
    PayloadAppend([head], rest[..k - 1]);
    assert Payload([head]) == data[..n] by {
      assert head.bytes[1..] == data[..n];
      assert Payload([head]) == head.bytes[1..] + Payload([]);
    }
  }

  /** Every message of `write_regs` has the shape `MessageAt` describes. */
  lemma MessagesShape(reg: nat, data: seq<bv8>)
    requires reg + |data| <= 256
    ensures forall k :: 0 <= k < |Messages(reg, data)| ==>
      var m := Messages(reg, data)[k];
      && m.I2cWrite? && m.addr == I2cAddr
      && 2 <= |m.bytes| <= MaxI2cMsgLen
      && |Payload(Messages(reg, data)[..k])| < |data|
      && m.bytes[0] == (reg + |Payload(Messages(reg, data)[..k])|) as bv8
  {
    forall k | 0 <= k < |Messages(reg, data)| {
      MessageAt(reg, data, k);
    }
  }

  // ---------------------------------------------------------------- register programs

  /** One step of the register protocol, as the tuner code issues it. */
  datatype Op =
    | Masked(reg: int, val: bv8, mask: bv8)   // write_reg_mask(reg, val, mask)
    | Bulk(reg: int, data: seq<bv8>)          // write_regs(reg, data)
    | Read(reg: int, len: nat)                // read_reg(reg, buf, len)

  predicate Allowed(op: Op)
  {
    match op
    case Masked(r, _, _) => InWindow(r, 1)
    case Bulk(r, d) => InWindow(r, |d|)
    case Read(r, _) => 0 <= r < 256
  }

  /** A register program: the operations issued so far, the latest last. */
  datatype Prog = Nil | Snoc(init: Prog, last: Op)
  {
    /** The program followed by one more operation. */
    function Then(op: Op): Prog
    {
      Snoc(this, op)
    }
  }

  /** The operations of a program as a list, in the order they are issued. */
  function Ops(p: Prog): (ops: seq<Op>)
  {
    match p
    case Nil => []
    case Snoc(q, op) => Ops(q) + [op]
  }

  /** Adding an operation appends it to the list. */
  lemma OpsThen(p: Prog, op: Op)
    ensures Ops(p.Then(op)) == Ops(p) + [op]
  {
  }

  /** The mirror after one operation; a read leaves it alone. Every operation the
      driver issues is `Allowed`; one that is not (which would panic in the driver)
      is given no effect, so that programs can be run without side conditions. */
  function Apply(shadow: seq<bv8>, op: Op): (s: seq<bv8>)
    ensures |s| == |shadow|
  {
    if |shadow| != NumRegs || !Allowed(op) then shadow
    else match op
      case Masked(r, v, m) => MaskedStore(shadow, r, v, m)
      case Bulk(r, d) => Store(shadow, r, d)
      case Read(_, _) => shadow
  }

  lemma ApplyMasked(shadow: seq<bv8>, reg: int, val: bv8, mask: bv8)
    requires |shadow| == NumRegs && InWindow(reg, 1)
    ensures Apply(shadow, Masked(reg, val, mask)) == MaskedStore(shadow, reg, val, mask)
  {
  }

  lemma ApplyBulk(shadow: seq<bv8>, reg: int, data: seq<bv8>)
    requires |shadow| == NumRegs && InWindow(reg, |data|)
    ensures Apply(shadow, Bulk(reg, data)) == Store(shadow, reg, data)
  {
  }

  /** The transport requests of one operation, given the mirror before it. */
  function Emit(shadow: seq<bv8>, op: Op): seq<Event>
  {
    if |shadow| != NumRegs || !Allowed(op) then []
    else match op
      case Masked(r, v, m) => Messages(r, [MaskedByte(shadow[r - ShadowStart], v, m)])
      case Bulk(r, d) => Messages(r, d)
      case Read(r, len) => [I2cWrite(I2cAddr, [r as bv8]), I2cRead(I2cAddr, len)]
  }

  /** The mirror after a whole program. */
  function RunShadow(shadow: seq<bv8>, p: Prog): (s: seq<bv8>)
    ensures |s| == |shadow|
  {
    match p
    case Nil => shadow
    case Snoc(q, op) => Apply(RunShadow(shadow, q), op)
  }

  /** The transport requests of a whole program, in order. */
  function RunTrace(shadow: seq<bv8>, p: Prog): seq<Event>
  {
    match p
    case Nil => []
    case Snoc(q, op) => RunTrace(shadow, q) + Emit(RunShadow(shadow, q), op)
  }

  /** One program after another. */
  function Append(p: Prog, q: Prog): (r: Prog)
    ensures Ops(r) == Ops(p) + Ops(q)
  {
    match q
    case Nil => p
    case Snoc(q', op) => Snoc(Append(p, q'), op)
  }

  /** Running two programs one after the other is running their concatenation: the
      second starts from the mirror the first leaves, and its requests follow the
      first's. */
  lemma {:induction false} RunAppend(shadow: seq<bv8>, p: Prog, q: Prog)
    ensures RunShadow(shadow, Append(p, q)) == RunShadow(RunShadow(shadow, p), q)
    ensures RunTrace(shadow, Append(p, q)) == RunTrace(shadow, p) + RunTrace(RunShadow(shadow, p), q)
  {
    match q
    case Nil =>
    case Snoc(q', op) =>
      RunAppend(shadow, p, q');
      var mid := RunShadow(shadow, p);
      TraceStep(RunTrace(shadow, p), RunTrace(mid, q'), Emit(RunShadow(mid, q'), op), RunTrace(mid, q));
  }

  /** A mirror and a log reached by running `p` from `shadow` after `log0`, advanced
      by one more operation, are those reached by running `p.Then(op)`. */
  lemma RunStep(shadow: seq<bv8>, log0: seq<Event>, p: Prog, op: Op,
                before: seq<bv8>, logBefore: seq<Event>)
    requires before == RunShadow(shadow, p) && logBefore == log0 + RunTrace(shadow, p)
    ensures Apply(before, op) == RunShadow(shadow, p.Then(op))
    ensures logBefore + Emit(before, op) == log0 + RunTrace(shadow, p.Then(op))
  {
    TraceStep(log0, RunTrace(shadow, p), Emit(before, op), RunTrace(shadow, p.Then(op)));
  }

  lemma TraceStep(log0: seq<Event>, t: seq<Event>, e: seq<Event>, t1: seq<Event>)
    requires t1 == t + e
    ensures (log0 + t) + e == log0 + t1
  {
  }

  // ---------------------------------------------------------------- defects of the source

  /** The guard `shadow_store` checks before caching a write (r820t.rs:599-600), as written. */
  predicate ShadowStoreGuardAsWritten(reg: int, len: int)
  {
    reg < ShadowStart && reg + len <= NumRegs
  }

  /** No register inside the mirrored window passes the written guard, so every
      single-byte write the driver issues (0x17 from the mux, say) would panic, while
      the read path (`read_cache_reg`) accepts exactly the window. */
  lemma ShadowStoreGuardRejectsWindow(reg: int)
    requires InWindow(reg, 1)
    ensures !ShadowStoreGuardAsWritten(reg, 1)
    ensures 0 <= reg - ShadowStart < NumRegs
  {
  }

  /** The chunk size `write_regs` picks (r820t.rs:576), as written. */
  function ChunkSizeAsWritten(len: nat): nat
  {
    if len > MaxI2cMsgLen - 1 then MaxI2cMsgLen else len
  }

  /** With eight or more bytes left the written rule sends an address byte plus eight
      data bytes: a nine-byte message, one more than MAX_I2C_MSG_LEN. */
  lemma ChunkSizeAsWrittenOverflows()
    ensures 1 + ChunkSizeAsWritten(8) == MaxI2cMsgLen + 1
    ensures 1 + ChunkSize(8) == MaxI2cMsgLen
  {
  }

  /** The loop of r820t.rs:574-584 has no exit: once nothing is left the written rule
      picks a chunk of 0 bytes, so every further round sends a lone address byte and
      leaves the remaining length at 0. */
  lemma WriteLoopAsWrittenNoProgress()
    ensures ChunkSizeAsWritten(0) == 0
    ensures Messages(ShadowStart, []) == []
  {
  }
}
