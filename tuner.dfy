/** The R820T tuner object (r820t.rs:232-611): the register mirror, the IF frequency
    and the lock flag it updates, and the operations the surrounding driver calls.
    Each operation that writes registers is specified by a register program
    (`Shadow.Op`): afterwards the mirror is `RunShadow` of the program from the old
    mirror and the handle's log has grown by `RunTrace` of it. */
module Tuner {
  import opened Transport
  import opened Bits
  import opened Shadow
  import opened Mux
  import opened Pll
  import opened Bandwidth

  /** R82XX_IF_FREQ: the demodulator IF set at initialisation, in Hz. */
  const IfFreq := 3570000

  /** The demodulator requests of `init` (r820t.rs:273-286): zero-IF mode off, in-phase
      ADC input only, the IF frequency, spectrum inversion on. */
  const InitEvents: seq<Event> :=
    [DemodWrite(1, 0xb1, 0x1a, 1), DemodWrite(0, 0x08, 0x4d, 1), SetIfFreq(IfFreq), DemodWrite(1, 0x15, 0x01, 1)]

  datatype GainMode = Auto | Manual(gain: int)
  datatype GainResult = GainSet | NotImplemented

  /** Fixed gains: LNA auto on, mixer auto on, VGA at 26.5 dB (r820t.rs:386-390). */
  const AutoGainOps: Prog := Nil.Then(Masked(0x05, 0x00, 0x10)).Then(Masked(0x07, 0x10, 0x10)).Then(Masked(0x0c, 0x0b, 0x9f))

  /** The band table entry for a frequency in Hz. */
  function RangeFor(freq: nat): FreqRange
  {
    FreqRanges[RangeIndex(freq / 1000000)]
  }

  /** A buffer after `read_reg` of `len` bytes: each byte is the wire byte, or the byte
      that was there, with its bits reversed. */
  function Reversed(raw: seq<bv8>, len: nat, before: seq<bv8>): (after: seq<bv8>)
    requires len <= |before| && |raw| == len
    ensures |after| == |before|
    ensures forall i :: 0 <= i < |before| ==> BitReverse(after[i]) == (if i < len then raw[i] else before[i])
  {
    BitReverseInvolutive();
    seq(|before|, i requires 0 <= i < |before| => BitReverse(if i < len then raw[i] else before[i]))
  }

  class R820T {
    /** The register mirror (`regs`): entry i mirrors register ShadowStart + i. */
    const regs: array<bv8>
    /** The public `freq` field; nothing in the tuner ever updates it. */
    const freq: int
    /** The IF offset added to every requested frequency (`int_freq`), in Hz. */
    var intFreq: int
    const xtalCapSel: XtalCapValue
    /** The crystal reference frequency, in Hz. */
    const xtal: nat
    var hasLock: bool

    predicate Valid()
      reads this
    {
      regs.Length == NumRegs && 0 < xtal && 0 <= intFreq <= 4570000
    }

    /** The mirror and the log are what running `done` from `s0` and `l0` leaves. */
    ghost predicate Ran(handle: DeviceHandle, s0: seq<bv8>, l0: seq<Event>, done: Prog)
      reads this, regs, handle
    {
      regs[..] == RunShadow(s0, done) && handle.log == l0 + RunTrace(s0, done)
    }

    /** `R820T::new` followed by `init`: a zeroed mirror, no IF offset, no lock, the
        default 30 pF crystal setting; `xtal` is the crystal frequency of the board. */
    constructor (handle: DeviceHandle, xtal: nat)
      requires 0 < xtal
      modifies handle
      ensures Valid() && fresh(regs)
      ensures regs[..] == seq(NumRegs, _ => 0)
      ensures freq == 0 && intFreq == 0 && !hasLock && xtalCapSel == XtalLowCap30p && this.xtal == xtal
      ensures handle.log == old(handle.log) + InitEvents
    {
      regs := new bv8[NumRegs](_ => 0);
      freq := 0;
      intFreq := 0;
      xtalCapSel := XtalLowCap30p;
      this.xtal := xtal;
      hasLock := false;
      new;
      Init(handle);
    }

    method Init(handle: DeviceHandle)
      modifies handle
      ensures handle.log == old(handle.log) + InitEvents
    {
      handle.DemodWriteReg(1, 0xb1, 0x1a, 1);
      handle.DemodWriteReg(0, 0x08, 0x4d, 1);
      handle.SetIfFrequency(IfFreq);
      handle.DemodWriteReg(1, 0x15, 0x01, 1);
    }

    /** `read_cache_reg`: the mirrored byte of a register inside the window. */
    method ReadCacheReg(reg: int) returns (v: bv8)
      requires Valid() && InWindow(reg, 1)
      ensures v == regs[reg - ShadowStart]
    {
      v := regs[reg - ShadowStart];
    }

    /** `shadow_store`: copies the data into the mirror from register `reg` on. */
    method ShadowStore(reg: int, val: seq<bv8>)
      requires Valid() && InWindow(reg, |val|)
      modifies regs
      ensures regs[..] == Store(old(regs[..]), reg, val)
    {
      forall i | 0 <= i < |val| {
        regs[reg - ShadowStart + i] := val[i];
      }
    }

    /** `write_regs`: stores the data in the mirror, then sends it in messages of an
        address byte and at most seven data bytes. */
    method WriteRegs(handle: DeviceHandle, reg: int, val: seq<bv8>)
      requires Valid() && InWindow(reg, |val|)
      modifies regs, handle
      ensures regs[..] == Store(old(regs[..]), reg, val)
      ensures handle.log == old(handle.log) + Messages(reg, val)
    {
      ShadowStore(reg, val);
      var len := |val|;
      var valIndex := 0;
      var regIndex := reg;
      while len > 0
        invariant 0 <= valIndex <= |val| && len == |val| - valIndex && regIndex == reg + valIndex
        invariant regs[..] == Store(old(regs[..]), reg, val)
        invariant handle.log + Messages(regIndex, val[valIndex..]) == old(handle.log) + Messages(reg, val)
        decreases len
      {
        var size := if len > MaxI2cMsgLen - 1 then MaxI2cMsgLen - 1 else len;
        ghost var sent, at, i := handle.log, regIndex, valIndex;
        MessagesAdvance(sent, reg, val, i, at, size);
        var buf := [regIndex as bv8] + val[valIndex..valIndex + size];
        handle.I2cWriteBytes(I2cAddr, buf);
        valIndex := valIndex + size;
        regIndex := regIndex + size;
        len := len - size;
        assert handle.log + Messages(regIndex, val[valIndex..]) == sent + Messages(at, val[i..]);
      }
      assert val[valIndex..] == [];
    }

    /** `write_reg_mask`: the bits under `mask` from `val`, the others from the mirror. */
    method WriteRegMask(handle: DeviceHandle, reg: int, val: bv8, mask: bv8)
      requires Valid() && InWindow(reg, 1)
      modifies regs, handle
      ensures regs[..] == MaskedStore(old(regs[..]), reg, val, mask)
      ensures handle.log == old(handle.log) + Messages(reg, [MaskedByte(old(regs[reg - ShadowStart]), val, mask)])
    {
      var rc := ReadCacheReg(reg);
      var applied := (rc & !mask) | (val & mask);
      WriteRegs(handle, reg, [applied]);
    }

    /** `read_reg`: asks for `len` bytes from register `reg`, then bit-reverses every
        byte of the buffer, including those past `len`. */
    method ReadReg(handle: DeviceHandle, reg: int, buf: array<bv8>, len: nat, raw: seq<bv8>)
      requires 0 <= reg < 256 && len <= buf.Length && |raw| == len
      modifies handle, buf
      ensures buf[..] == Reversed(raw, len, old(buf[..]))
      ensures handle.log == old(handle.log) + [I2cWrite(I2cAddr, [reg as bv8]), I2cRead(I2cAddr, len)]
    {
      ghost var before := buf[..];
      handle.I2cWriteBytes(I2cAddr, [reg as bv8]);
      handle.I2cReadBytes(I2cAddr, buf, len, raw);
      ghost var filled := buf[..];
      ghost var log := handle.log;
      assert forall i :: 0 <= i < buf.Length ==> filled[i] == if i < len then raw[i] else before[i] by {
        assert filled[..len] == raw && filled[len..] == before[len..];
      }
      var i := 0;
      while i < buf.Length
        invariant 0 <= i <= buf.Length
        invariant forall j :: 0 <= j < i ==> buf[j] == BitReverse(filled[j])
        invariant forall j :: i <= j < buf.Length ==> buf[j] == filled[j]
        invariant handle.log == log
      {
        buf[i] := BitReverse(buf[i]);
        i := i + 1;
      }
    }

    // ------------------------------------------------------------ program steps

    /** One masked write as a step of a register program. */
    method MaskedStep(handle: DeviceHandle, reg: int, val: bv8, mask: bv8,
                      ghost s0: seq<bv8>, ghost l0: seq<Event>, ghost done: Prog)
      requires Valid() && InWindow(reg, 1) && Ran(handle, s0, l0, done)
      modifies regs, handle
      ensures Ran(handle, s0, l0, done.Then(Masked(reg, val, mask)))
    {
      ghost var before := regs[..];
      ghost var log := handle.log;
      WriteRegMask(handle, reg, val, mask);
      RunStep(s0, l0, done, Masked(reg, val, mask), before, log);
    }

    /** One bulk write as a step of a register program. */
    method BulkStep(handle: DeviceHandle, reg: int, val: seq<bv8>,
                    ghost s0: seq<bv8>, ghost l0: seq<Event>, ghost done: Prog)
      requires Valid() && InWindow(reg, |val|) && Ran(handle, s0, l0, done)
      modifies regs, handle
      ensures Ran(handle, s0, l0, done.Then(Bulk(reg, val)))
    {
      ghost var before := regs[..];
      ghost var log := handle.log;
      WriteRegs(handle, reg, val);
      RunStep(s0, l0, done, Bulk(reg, val), before, log);
    }

    /** One status read as a step of a register program. */
    method ReadStep(handle: DeviceHandle, reg: int, buf: array<bv8>, len: nat, raw: seq<bv8>,
                    ghost s0: seq<bv8>, ghost l0: seq<Event>, ghost done: Prog)
      requires Valid() && 0 <= reg < 256 && len <= buf.Length && |raw| == len && buf != regs
      requires Ran(handle, s0, l0, done)
      modifies handle, buf
      ensures Ran(handle, s0, l0, done.Then(Read(reg, len)))
      ensures buf[..] == Reversed(raw, len, old(buf[..]))
    {
      ghost var before := regs[..];
      ghost var log := handle.log;
      ReadReg(handle, reg, buf, len, raw);
      RunStep(s0, l0, done, Read(reg, len), before, log);
    }

    // ------------------------------------------------------------ operations

    /** `set_mux` (r820t.rs:400-444): select the band of `freq`, then write its open
        drain, RF mux, tracking filter and crystal cap bits and clear 0x08/0x09. */
    method SetMux(handle: DeviceHandle, freq: nat)
      requires Valid()
      modifies regs, handle
      ensures Ran(handle, old(regs[..]), old(handle.log), MuxOps(RangeFor(freq), xtalCapSel))
    {
      ghost var s0, l0 := regs[..], handle.log;
      ghost var done := Nil;
      var idx := SelectRange(freq / 1000000);
      var range := FreqRanges[idx];
      MaskedStep(handle, 0x17, range.openD, 0x08, s0, l0, done);
      done := done.Then(Masked(0x17, range.openD, 0x08));
      MaskedStep(handle, 0x1a, range.rfMuxPloy, 0xc3, s0, l0, done);
      done := done.Then(Masked(0x1a, range.rfMuxPloy, 0xc3));
      BulkStep(handle, 0x1b, [range.tfC], s0, l0, done);
      done := done.Then(Bulk(0x1b, [range.tfC]));
      var val := CapByte(range, xtalCapSel);
      MaskedStep(handle, 0x10, val, 0x0b, s0, l0, done);
      done := done.Then(Masked(0x10, val, 0x0b));
      MaskedStep(handle, 0x08, 0x00, 0x3f, s0, l0, done);
      done := done.Then(Masked(0x08, 0x00, 0x3f));
      MaskedStep(handle, 0x09, 0x00, 0x3f, s0, l0, done);
    }

    /** The lock poll of `set_pll` (r820t.rs:527-546): read the status, and while the
        PLL has not locked raise the VCO current and read once more; record the outcome,
        and on lock narrow PLL auto-tune to 8 kHz. `raw0` and `raw1` are the bytes the
        two reads would return. */
    method PollLock(handle: DeviceHandle, data: array<bv8>, raw0: seq<bv8>, raw1: seq<bv8>,
                    ghost s0: seq<bv8>, ghost l0: seq<Event>, ghost done: Prog)
      returns (locked: bool)
      requires Valid() && data.Length == 5 && data != regs && |raw0| == 3 && |raw1| == 3
      requires Ran(handle, s0, l0, done)
      modifies this, regs, handle, data
      ensures Valid() && intFreq == old(intFreq)
      ensures locked == LockIn(raw0[2], raw1[2]) && hasLock == locked
      ensures Ran(handle, s0, l0, LockOps(done, raw0[2], raw1[2]))
    {
      ghost var polled := done;
      for i := 0 to 2
        invariant Valid() && intFreq == old(intFreq)
        invariant polled == (if i == 0 then done
                             else if i == 1 then done.Then(Read(0x00, 3)).Then(Masked(0x12, 0x06, 0xff))
                             else LockReads(done, raw0[2]))
        invariant i >= 1 ==> !LockBit(raw0[2])
        invariant i == 2 ==> data[2] == BitReverse(raw1[2])
        invariant Ran(handle, s0, l0, polled)
      {
        var raw := if i == 0 then raw0 else raw1;
        ReadStep(handle, 0x00, data, 3, raw, s0, l0, polled);
        polled := polled.Then(Read(0x00, 3));
        if data[2] & 0x40 != 0 {
          break;
        }
        if i == 0 {
          MaskedStep(handle, 0x12, 0x06, 0xff, s0, l0, polled);
          polled := polled.Then(Masked(0x12, 0x06, 0xff));
        }
      }
      assert polled == LockReads(done, raw0[2]);
      locked := data[2] & 0x40 != 0;
      if !locked {
        hasLock := false;
        return;
      }
      hasLock := true;
      MaskedStep(handle, 0x1a, 0x08, 0x08, s0, l0, polled);
    }

    /** The divider byte, pw_sdm and the modulator word of `set_pll` (r820t.rs:501-526). */
    method WriteFraction(handle: DeviceHandle, nint: int, fra: nat, sdm: nat,
                         ghost s0: seq<bv8>, ghost l0: seq<Event>, ghost done: Prog)
      requires Valid() && NintMin <= nint <= NintMax && sdm < 65536
      requires Ran(handle, s0, l0, done)
      modifies regs, handle
      ensures Ran(handle, s0, l0, FracOps(done, nint, fra, sdm))
    {
      var niSi := NiSiByte(nint) as bv8;
      ghost var d := done;
      BulkStep(handle, 0x14, [niSi], s0, l0, d);
      d := d.Then(Bulk(0x14, [niSi]));
      var pwSdm: bv8 := if fra == 0 then 0x08 else 0x00;
      MaskedStep(handle, 0x12, pwSdm, 0x08, s0, l0, d);
      d := d.Then(Masked(0x12, pwSdm, 0x08));
      var sdmHigh, sdmLow := (sdm / 256) as bv8, (sdm % 256) as bv8;
      BulkStep(handle, 0x16, [sdmHigh], s0, l0, d);
      d := d.Then(Bulk(0x16, [sdmHigh]));
      assert d.Then(Bulk(0x15, [sdmLow])) == FracOps(done, nint, fra, sdm);
      BulkStep(handle, 0x15, [sdmLow], s0, l0, d);
    }

    /** `set_pll` from the integer divider on (r820t.rs:493-546), for VCO frequency `vco`:
        the divider range check, the divider, pw_sdm and modulator writes and the lock
        poll. */
    method PllFraction(handle: DeviceHandle, vco: nat, data: array<bv8>, raw0: seq<bv8>, raw1: seq<bv8>,
                       ghost s0: seq<bv8>, ghost l0: seq<Event>, ghost done: Prog)
      returns (status: PllStatus)
      requires Valid() && data.Length == 5 && data != regs && |raw0| == 3 && |raw1| == 3
      requires Ran(handle, s0, l0, done)
      modifies this, regs, handle, data
      ensures Valid() && intFreq == old(intFreq)
      ensures status == PllTail(done, vco, xtal, raw0[2], raw1[2]).status
      ensures Ran(handle, s0, l0, PllTail(done, vco, xtal, raw0[2], raw1[2]).ops)
      ensures hasLock == if status.OutOfRange? then old(hasLock) else status == Locked
    {
      var refKhz := Khz(xtal);
      var nint := Nint(vco, xtal);
      var fra := VcoFra(vco, xtal);
      if nint > NintMax {
        return OutOfRange(NintTooLarge);
      }
      if nint < NintMin {
        return OutOfRange(NintTooSmall);
      }
      var sdm, n := SdmWord(fra, refKhz);
      WriteFraction(handle, nint, fra, sdm, s0, l0, done);
      var locked := PollLock(handle, data, raw0, raw1, s0, l0, FracOps(done, nint, fra, sdm));
      status := if locked then Locked else LockFailure;
    }

    /** The status read and the fine-tune reading taken from its byte 4 (r820t.rs:482-486). */
    method ReadFineTune(handle: DeviceHandle, data: array<bv8>, raw5: seq<bv8>,
                        ghost s0: seq<bv8>, ghost l0: seq<Event>, ghost done: Prog)
      returns (fineTune: bv8)
      requires Valid() && data.Length == 5 && data != regs && |raw5| == 5
      requires Ran(handle, s0, l0, done)
      modifies handle, data
      ensures Ran(handle, s0, l0, done.Then(StatusRead))
      ensures fineTune == FineTune(raw5[4])
    {
      ReadStep(handle, 0x00, data, 5, raw5, s0, l0, done);
      fineTune := (data[4] & 0x30) >> 4;
    }

    /** The status read, the fine-tune correction of the divider-select code and its
        write (r820t.rs:482-492), then the rest of `set_pll` for the divider `mixDiv`. */
    method PllDivider(handle: DeviceHandle, freq: nat, mixDiv: nat, divNum0: nat,
                      raw5: seq<bv8>, raw0: seq<bv8>, raw1: seq<bv8>,
                      ghost s0: seq<bv8>, ghost l0: seq<Event>, ghost done: Prog)
      returns (status: PllStatus)
      requires Valid() && divNum0 < 7 && |raw5| == 5 && |raw0| == 3 && |raw1| == 3
      requires Ran(handle, s0, l0, done)
      modifies this, regs, handle
      ensures Valid() && intFreq == old(intFreq)
      ensures status == PllDivided(done, freq, mixDiv, divNum0, xtal, raw5[4], raw0[2], raw1[2]).status
      ensures Ran(handle, s0, l0, PllDivided(done, freq, mixDiv, divNum0, xtal, raw5[4], raw0[2], raw1[2]).ops)
      ensures hasLock == if status.OutOfRange? then old(hasLock) else status == Locked
    {
      var data := new bv8[5](_ => 0);
      var fineTune := ReadFineTune(handle, data, raw5, s0, l0, done);
      ghost var d := done.Then(StatusRead);
      var divNum := divNum0;
      if fineTune > VcoPowerRef {
        if divNum == 0 {
          assert AdjustDivNum(divNum0, FineTune(raw5[4])).None?;
          return OutOfRange(DivNumUnderflow);
        }
        divNum := divNum - 1;
      } else if fineTune < VcoPowerRef {
        divNum := divNum + 1;
      }
      assert AdjustDivNum(divNum0, fineTune) == Some(divNum);
      PllDividedAdjusted(done, freq, mixDiv, divNum0, xtal, raw5[4], raw0[2], raw1[2], divNum);
      MaskedStep(handle, 0x10, (divNum * 32) as bv8, 0xe0, s0, l0, d);
      status := PllFraction(handle, Vco(freq, mixDiv), data, raw0, raw1, s0, l0, d.Then(DivOp(divNum)));
    }

    /** The three setup writes of r820t.rs:452-460 as steps of the program. */
    method SetupSteps(handle: DeviceHandle, ghost s0: seq<bv8>, ghost l0: seq<Event>)
      requires Valid() && Ran(handle, s0, l0, Nil)
      modifies regs, handle
      ensures Ran(handle, s0, l0, PllSetup(Nil))
    {
      MaskedStep(handle, 0x10, 0x00, 0x10, s0, l0, Nil);
      MaskedStep(handle, 0x1a, 0x00, 0x0c, s0, l0, Nil.Then(Masked(0x10, 0x00, 0x10)));
      MaskedStep(handle, 0x12, 0x06, 0xff, s0, l0, Nil.Then(Masked(0x10, 0x00, 0x10)).Then(Masked(0x1a, 0x00, 0x0c)));
    }

    /** `set_pll(freq)` (r820t.rs:446-547): the setup writes and the divider search
        (r820t.rs:446-480), then the rest. `raw5` is what the status read returns,
        `raw0` and `raw1` what the lock polls return. A fault ends the attempt where it
        is detected. */
    method SetPll(handle: DeviceHandle, freq: nat, raw5: seq<bv8>, raw0: seq<bv8>, raw1: seq<bv8>)
      returns (status: PllStatus)
      requires Valid() && |raw5| == 5 && |raw0| == 3 && |raw1| == 3
      modifies this, regs, handle
      ensures Valid() && intFreq == old(intFreq)
      ensures status == PllProgram(freq, xtal, raw5[4], raw0[2], raw1[2]).status
      ensures Ran(handle, old(regs[..]), old(handle.log), PllProgram(freq, xtal, raw5[4], raw0[2], raw1[2]).ops)
      ensures hasLock == if status.OutOfRange? then old(hasLock) else status == Locked
    {
      ghost var s0, l0 := regs[..], handle.log;
      var freqKhz := (freq + 500) / 1000;
      assert freqKhz == Khz(freq);
      SetupSteps(handle, s0, l0);
      ghost var setup := PllSetup(Nil);
      ghost var plan := PllProgram(freq, xtal, raw5[4], raw0[2], raw1[2]);
      var found, mixDiv, divNum := FindMixDiv(freqKhz);
      if !found {
        assert plan == PllPlan(setup, OutOfRange(NoMixDiv));
        return OutOfRange(NoMixDiv);
      }
      PllProgramFound(freq, xtal, raw5[4], raw0[2], raw1[2], mixDiv, divNum);
      status := PllDivider(handle, freq, mixDiv, divNum, raw5, raw0, raw1, s0, l0, setup);
    }

    /** `set_freq` (r820t.rs:296-302): the local oscillator is the requested frequency
        plus the IF; the mux is set for it, then the PLL. The status of the PLL attempt
        is returned. */
    method SetFreq(handle: DeviceHandle, freq: nat, raw5: seq<bv8>, raw0: seq<bv8>, raw1: seq<bv8>)
      returns (status: PllStatus, ghost lo: nat)
      requires Valid() && freq + intFreq < 0x1_0000_0000 && |raw5| == 5 && |raw0| == 3 && |raw1| == 3
      modifies this, regs, handle
      ensures Valid() && intFreq == old(intFreq) && lo == freq + old(intFreq)
      ensures status == PllProgram(lo, xtal, raw5[4], raw0[2], raw1[2]).status
      ensures regs[..] == RunShadow(RunShadow(old(regs[..]), MuxOps(RangeFor(lo), xtalCapSel)),
                                    PllProgram(lo, xtal, raw5[4], raw0[2], raw1[2]).ops)
      ensures handle.log == old(handle.log) + RunTrace(old(regs[..]), MuxOps(RangeFor(lo), xtalCapSel))
                            + RunTrace(RunShadow(old(regs[..]), MuxOps(RangeFor(lo), xtalCapSel)),
                                       PllProgram(lo, xtal, raw5[4], raw0[2], raw1[2]).ops)
      ensures hasLock == if status.OutOfRange? then old(hasLock) else status == Locked
      ensures var whole := Append(MuxOps(RangeFor(lo), xtalCapSel), PllProgram(lo, xtal, raw5[4], raw0[2], raw1[2]).ops);
        regs[..] == RunShadow(old(regs[..]), whole) && handle.log == old(handle.log) + RunTrace(old(regs[..]), whole)
    {
      ghost var s0, l0 := regs[..], handle.log;
      var loFreq := freq + intFreq;
      lo := loFreq;
      SetMux(handle, loFreq);
      status := SetPll(handle, loFreq, raw5, raw0, raw1);
      ghost var mux, pll := MuxOps(RangeFor(lo), xtalCapSel), PllProgram(lo, xtal, raw5[4], raw0[2], raw1[2]).ops;
      assert regs[..] == RunShadow(RunShadow(s0, mux), pll);
      assert handle.log == l0 + RunTrace(s0, mux) + RunTrace(RunShadow(s0, mux), pll);
      RunAppend(s0, mux, pll);
      TraceStep(l0, RunTrace(s0, mux), RunTrace(RunShadow(s0, mux), pll), RunTrace(s0, Append(mux, pll)));
    }

    /** `set_bandwidth(bw, rate)` (r820t.rs:304-373): the IF and the filter bytes for the
        bandwidth, reinterpreted as an i32, then the masked writes of 0x0a and 0x0b.
        The sample rate is not used. */
    method SetBandwidth(handle: DeviceHandle, bwIn: nat, rate: nat)
      requires Valid() && bwIn < 0x1_0000_0000
      modifies this, regs, handle
      ensures Valid() && intFreq == BwPlan(AsI32(bwIn)).intFreq
      ensures Ran(handle, old(regs[..]), old(handle.log), BwOps(BwPlan(AsI32(bwIn))))
      ensures hasLock == old(hasLock)
    {
      var bw := if bwIn < 0x8000_0000 then bwIn else bwIn - 0x1_0000_0000;
      var setting := BandwidthSetting(bw);
      BwIntFreqRange(bw);
      intFreq := setting.intFreq;
      ghost var s0, l0 := regs[..], handle.log;
      MaskedStep(handle, 0x0a, setting.reg0a, 0x10, s0, l0, Nil);
      MaskedStep(handle, 0x0b, setting.reg0b, 0xef, s0, l0, Nil.Then(Masked(0x0a, setting.reg0a, 0x10)));
    }

    /** `set_gain` (r820t.rs:382-396): automatic gain turns LNA and mixer auto gain on
        and fixes the VGA; manual gain is not implemented and changes nothing. */
    method SetGain(handle: DeviceHandle, mode: GainMode) returns (r: GainResult)
      requires Valid()
      modifies regs, handle
      ensures mode.Auto? ==> r == GainSet && Ran(handle, old(regs[..]), old(handle.log), AutoGainOps)
      ensures mode.Manual? ==> r == NotImplemented && regs[..] == old(regs[..]) && handle.log == old(handle.log)
    {
      match mode
      case Auto =>
        ghost var s0, l0 := regs[..], handle.log;
        MaskedStep(handle, 0x05, 0x00, 0x10, s0, l0, Nil);
        MaskedStep(handle, 0x07, 0x10, 0x10, s0, l0, Nil.Then(Masked(0x05, 0x00, 0x10)));
        MaskedStep(handle, 0x0c, 0x0b, 0x9f, s0, l0, Nil.Then(Masked(0x05, 0x00, 0x10)).Then(Masked(0x07, 0x10, 0x10)));
        r := GainSet;
      case Manual(_) =>
        r := NotImplemented;
    }

    /** `get_if_freq` (r820t.rs:375-377). */
    method GetIfFreq() returns (f: int)
      requires Valid()
      ensures f == intFreq && 0 <= f <= 4570000
    {
      f := intFreq;
    }
  }
}
