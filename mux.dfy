/** RF mux and band routing (r820t.rs `set_mux`): the tracking-filter band table, the
    choice of an entry for a local-oscillator frequency, and the six register writes
    that route the RF front end and trim the crystal capacitance. */
module Mux {
  import opened Shadow

  /** One band of the tracking filter (`FreqRange`): it starts at `freq` MHz. */
  datatype FreqRange = FreqRange(
    freq: int,          // start of the band, in MHz
    openD: bv8,         // open-drain bit of register 0x17
    rfMuxPloy: bv8,     // RF mux / polyphase filter bits of register 0x1a
    tfC: bv8,           // tracking-filter band, the whole of register 0x1b
    xtalCap20p: bv8,    // crystal trim fields for register 0x10
    xtalCap10p: bv8,
    xtalCap0p: bv8)

  /** FREQ_RANGES, ascending by start frequency. */
  const FreqRanges: seq<FreqRange> := [
    FreqRange(   0, 0x08, 0x02, 0xdf, 0x02, 0x01, 0x00),
    FreqRange(  50, 0x08, 0x02, 0xbe, 0x02, 0x01, 0x00),
    FreqRange(  55, 0x08, 0x02, 0x8b, 0x02, 0x01, 0x00),
    FreqRange(  60, 0x08, 0x02, 0x7b, 0x02, 0x01, 0x00),
    FreqRange(  65, 0x08, 0x02, 0x69, 0x02, 0x01, 0x00),
    FreqRange(  70, 0x08, 0x02, 0x58, 0x02, 0x01, 0x00),
    FreqRange(  75, 0x00, 0x02, 0x44, 0x02, 0x01, 0x00),
    FreqRange(  80, 0x00, 0x02, 0x44, 0x02, 0x01, 0x00),
    FreqRange(  90, 0x00, 0x02, 0x34, 0x01, 0x01, 0x00),
    FreqRange( 100, 0x00, 0x02, 0x34, 0x01, 0x01, 0x00),
    FreqRange( 110, 0x00, 0x02, 0x24, 0x01, 0x01, 0x00),
    FreqRange( 120, 0x00, 0x02, 0x24, 0x01, 0x01, 0x00),
    FreqRange( 140, 0x00, 0x02, 0x14, 0x01, 0x01, 0x00),
    FreqRange( 180, 0x00, 0x02, 0x13, 0x00, 0x00, 0x00),
    FreqRange( 220, 0x00, 0x02, 0x13, 0x00, 0x00, 0x00),
    FreqRange( 250, 0x00, 0x02, 0x11, 0x00, 0x00, 0x00),
    FreqRange( 280, 0x00, 0x02, 0x00, 0x00, 0x00, 0x00),
    FreqRange( 310, 0x00, 0x41, 0x00, 0x00, 0x00, 0x00),
    FreqRange( 450, 0x00, 0x41, 0x00, 0x00, 0x00, 0x00),
    FreqRange( 588, 0x00, 0x40, 0x00, 0x00, 0x00, 0x00),
    FreqRange( 650, 0x00, 0x40, 0x00, 0x00, 0x00, 0x00)
  ]

  /** Entries i, i + 1, ... have strictly ascending start frequencies. */
  predicate AscendingFrom(t: seq<FreqRange>, i: nat)
    requires i < |t|
    decreases |t| - i
  {
    i + 1 == |t| || (t[i].freq < t[i + 1].freq && AscendingFrom(t, i + 1))
  }

  lemma {:induction false} AscendingFromPairs(t: seq<FreqRange>, i: nat)
    requires i < |t| && AscendingFrom(t, i)
    ensures forall a, b :: i <= a < b < |t| ==> t[a].freq < t[b].freq
    decreases |t| - i
  {
    if i + 1 < |t| {
      AscendingFromPairs(t, i + 1);
    }
  }

  /** The table starts at 0 MHz and its start frequencies strictly ascend. */
  lemma FreqRangesAscending()
    ensures |FreqRanges| == 21 && FreqRanges[0].freq == 0
    ensures forall a, b :: 0 <= a < b < |FreqRanges| ==> FreqRanges[a].freq < FreqRanges[b].freq
  {
    assert AscendingFrom(FreqRanges, 20);
    assert AscendingFrom(FreqRanges, 19);
    assert AscendingFrom(FreqRanges, 18);
    assert AscendingFrom(FreqRanges, 17);
    assert AscendingFrom(FreqRanges, 16);
    assert AscendingFrom(FreqRanges, 15);
    assert AscendingFrom(FreqRanges, 14);
    assert AscendingFrom(FreqRanges, 13);
    assert AscendingFrom(FreqRanges, 12);
    assert AscendingFrom(FreqRanges, 11);
    assert AscendingFrom(FreqRanges, 10);
    assert AscendingFrom(FreqRanges, 9);
    assert AscendingFrom(FreqRanges, 8);
    assert AscendingFrom(FreqRanges, 7);
    assert AscendingFrom(FreqRanges, 6);
    assert AscendingFrom(FreqRanges, 5);
    assert AscendingFrom(FreqRanges, 4);
    assert AscendingFrom(FreqRanges, 3);
    assert AscendingFrom(FreqRanges, 2);
    assert AscendingFrom(FreqRanges, 1);
    assert AscendingFrom(FreqRanges, 0);
    AscendingFromPairs(FreqRanges, 0);
  }

  /** The last entry at or below entry i whose band starts at or below `mhz`
      (entry 0 when none does): the entry the scan of `set_mux` settles on. */
  function RangeIndexFrom(mhz: int, i: nat): (r: nat)
    requires i < |FreqRanges|
    ensures r <= i
    ensures r == 0 || FreqRanges[r].freq <= mhz
    ensures forall j :: r < j <= i ==> mhz < FreqRanges[j].freq
    decreases i
  {
    if i == 0 || FreqRanges[i].freq <= mhz then i else RangeIndexFrom(mhz, i - 1)
  }

  /** The band for a frequency of `mhz` MHz: the entry with the largest start
      frequency that is at or below `mhz`. */
  function RangeIndex(mhz: int): (r: nat)
    requires 0 <= mhz
    ensures r < |FreqRanges| && FreqRanges[r].freq <= mhz
    ensures forall j :: r < j < |FreqRanges| ==> mhz < FreqRanges[j].freq
  {
    RangeIndexFrom(mhz, |FreqRanges| - 1)
  }

  /** The scan of r820t.rs:404-415: walk the table in order, keep the last entry
      whose start is not above `mhz`, stop at the first one above it. */
  method SelectRange(mhz: int) returns (idx: nat)
    requires 0 <= mhz
    ensures idx < |FreqRanges| && FreqRanges[idx].freq <= mhz
    ensures forall j :: idx < j < |FreqRanges| ==> mhz < FreqRanges[j].freq
    ensures idx == RangeIndex(mhz)
  {
    FreqRangesAscending();
    idx := 0;
    var i := 0;
    while i < |FreqRanges|
      invariant 0 <= i <= |FreqRanges|
      invariant idx == if i == 0 then 0 else i - 1
      invariant forall j :: 0 <= j < i ==> FreqRanges[j].freq <= mhz
    {
      var start := FreqRanges[i].freq;
      if mhz < start {
        break;
      }
      idx := i;
      i := i + 1;
    }
  }

  /** Xtal_Cap_Value: the crystal load capacitance the board is fitted with. */
  datatype XtalCapValue = XtalLowCap30p | XtalLowCap20p | XtalLowCap10p | XtalLowCap0p | XtalHighCap0p

  /** The calibration field of a band that a capacitance setting uses. */
  function CapField(r: FreqRange, sel: XtalCapValue): bv8
  {
    match sel
    case XtalLowCap30p | XtalLowCap20p => r.xtalCap20p
    case XtalLowCap10p => r.xtalCap10p
    case XtalLowCap0p | XtalHighCap0p => r.xtalCap0p
  }

  /** The drive bit 0x08 of register 0x10: on for every setting except high-capacitance 0 pF. */
  function Drive(sel: XtalCapValue): bv8
  {
    if sel.XtalHighCap0p? then 0x00 else 0x08
  }

  /** The crystal cap and drive byte of r820t.rs:427-440. */
  function CapByte(r: FreqRange, sel: XtalCapValue): (b: bv8)
    ensures b == CapField(r, sel) | Drive(sel)
    ensures !sel.XtalHighCap0p? ==> b & 0x08 == 0x08
  {
    match sel
    case XtalLowCap30p | XtalLowCap20p => r.xtalCap20p | 0x08
    case XtalLowCap10p => r.xtalCap10p | 0x08
    case XtalHighCap0p => r.xtalCap0p | 0x00
    case XtalLowCap0p => r.xtalCap0p | 0x08
  }

  /** The mirror indices of the six registers the mux program writes. */
  const MuxTouched: set<int> := {0x17 - ShadowStart, 0x1a - ShadowStart, 0x1b - ShadowStart,
                                 0x10 - ShadowStart, 0x08 - ShadowStart, 0x09 - ShadowStart}

  /** The writes of r820t.rs:417-443 for band r, in order: six writes, each inside
      the mirrored window, and no read. */
  function MuxOps(r: FreqRange, sel: XtalCapValue): (p: Prog)
    ensures |Ops(p)| == 6
    ensures forall i :: 0 <= i < |Ops(p)| ==> !Ops(p)[i].Read? && Allowed(Ops(p)[i])
  {
    var p1 := Nil.Then(Masked(0x17, r.openD, 0x08)).Then(Masked(0x1a, r.rfMuxPloy, 0xc3));
    var p2 := p1.Then(Bulk(0x1b, [r.tfC])).Then(Masked(0x10, CapByte(r, sel), 0x0b));
    var p3 := p2.Then(Masked(0x08, 0x00, 0x3f));
    OpsThen(Nil, Masked(0x17, r.openD, 0x08));
    OpsThen(Nil.Then(Masked(0x17, r.openD, 0x08)), Masked(0x1a, r.rfMuxPloy, 0xc3));
    OpsThen(p1, Bulk(0x1b, [r.tfC]));
    OpsThen(p1.Then(Bulk(0x1b, [r.tfC])), Masked(0x10, CapByte(r, sel), 0x0b));
    OpsThen(p2, Masked(0x08, 0x00, 0x3f));
    OpsThen(p3, Masked(0x09, 0x00, 0x3f));
    Nil.Then(Masked(0x17, r.openD, 0x08))           // open drain
       .Then(Masked(0x1a, r.rfMuxPloy, 0xc3))       // RF mux, polymux
       .Then(Bulk(0x1b, [r.tfC]))                   // tracking-filter band
       .Then(Masked(0x10, CapByte(r, sel), 0x0b))   // crystal cap and drive
       .Then(Masked(0x08, 0x00, 0x3f))
       .Then(Masked(0x09, 0x00, 0x3f))
  }

  /** The mirror after the mux writes, spelled out one store at a time. */
  function MuxShadow(shadow: seq<bv8>, r: FreqRange, sel: XtalCapValue): (s: seq<bv8>)
    requires |shadow| == NumRegs
    ensures |s| == NumRegs
  {
    var s1 := MaskedStore(shadow, 0x17, r.openD, 0x08);
    var s2 := MaskedStore(s1, 0x1a, r.rfMuxPloy, 0xc3);
    var s3 := Store(s2, 0x1b, [r.tfC]);
    var s4 := MaskedStore(s3, 0x10, CapByte(r, sel), 0x0b);
    var s5 := MaskedStore(s4, 0x08, 0x00, 0x3f);
    MaskedStore(s5, 0x09, 0x00, 0x3f)
  }

  /** Running the mux program is performing those stores in order. */
  lemma MuxRun(shadow: seq<bv8>, r: FreqRange, sel: XtalCapValue)
    requires |shadow| == NumRegs
    ensures RunShadow(shadow, MuxOps(r, sel)) == MuxShadow(shadow, r, sel)
  {
    MuxRunSteps(shadow, r, sel);
    var s1 := MaskedStore(shadow, 0x17, r.openD, 0x08);
    var s2 := MaskedStore(s1, 0x1a, r.rfMuxPloy, 0xc3);
    var s3 := Store(s2, 0x1b, [r.tfC]);
    var s4 := MaskedStore(s3, 0x10, CapByte(r, sel), 0x0b);
    var s5 := MaskedStore(s4, 0x08, 0x00, 0x3f);
    ApplyMasked(shadow, 0x17, r.openD, 0x08);
    ApplyMasked(s1, 0x1a, r.rfMuxPloy, 0xc3);
    ApplyBulk(s2, 0x1b, [r.tfC]);
    ApplyMasked(s3, 0x10, CapByte(r, sel), 0x0b);
    ApplyMasked(s4, 0x08, 0x00, 0x3f);
    ApplyMasked(s5, 0x09, 0x00, 0x3f);
  }

  /** The mux program, one operation at a time. */
  lemma MuxRunSteps(shadow: seq<bv8>, r: FreqRange, sel: XtalCapValue)
    ensures RunShadow(shadow, MuxOps(r, sel)) ==
      Apply(Apply(Apply(Apply(Apply(Apply(shadow,
        Masked(0x17, r.openD, 0x08)), Masked(0x1a, r.rfMuxPloy, 0xc3)), Bulk(0x1b, [r.tfC])),
        Masked(0x10, CapByte(r, sel), 0x0b)), Masked(0x08, 0x00, 0x3f)), Masked(0x09, 0x00, 0x3f))
  {
    var p1 := Nil.Then(Masked(0x17, r.openD, 0x08));
    var p2 := p1.Then(Masked(0x1a, r.rfMuxPloy, 0xc3));
    var p4 := p2.Then(Bulk(0x1b, [r.tfC])).Then(Masked(0x10, CapByte(r, sel), 0x0b));
    assert RunShadow(shadow, p1) == Apply(shadow, Masked(0x17, r.openD, 0x08));
    assert RunShadow(shadow, p2) ==
      Apply(Apply(shadow, Masked(0x17, r.openD, 0x08)), Masked(0x1a, r.rfMuxPloy, 0xc3));
    assert RunShadow(shadow, p4) ==
      Apply(Apply(RunShadow(shadow, p2), Bulk(0x1b, [r.tfC])), Masked(0x10, CapByte(r, sel), 0x0b));
  }

  lemma MuxShadowFields(shadow: seq<bv8>, r: FreqRange, sel: XtalCapValue)
    requires |shadow| == NumRegs
    ensures var s := MuxShadow(shadow, r, sel);
      && s[0x17 - ShadowStart] == MaskedByte(shadow[0x17 - ShadowStart], r.openD, 0x08)
      && s[0x1a - ShadowStart] == MaskedByte(shadow[0x1a - ShadowStart], r.rfMuxPloy, 0xc3)
      && s[0x1b - ShadowStart] == r.tfC
      && s[0x10 - ShadowStart] == MaskedByte(shadow[0x10 - ShadowStart], CapField(r, sel) | Drive(sel), 0x0b)
      && s[0x08 - ShadowStart] == MaskedByte(shadow[0x08 - ShadowStart], 0x00, 0x3f)
      && s[0x09 - ShadowStart] == MaskedByte(shadow[0x09 - ShadowStart], 0x00, 0x3f)
  {
    var s3 := Store(MaskedStore(MaskedStore(shadow, 0x17, r.openD, 0x08), 0x1a, r.rfMuxPloy, 0xc3), 0x1b, [r.tfC]);
    MuxFieldsEarly(shadow, r);
    MuxFieldsLate(s3, CapByte(r, sel));
  }

  /** The first three mux writes: the open-drain bit, the RF mux and polymux bits and
      the tracking-filter byte; the capacitor and drive register and the two 0x08/0x09
      registers still hold their old bytes. */
  lemma MuxFieldsEarly(shadow: seq<bv8>, r: FreqRange)
    requires |shadow| == NumRegs
    ensures var s3 := Store(MaskedStore(MaskedStore(shadow, 0x17, r.openD, 0x08), 0x1a, r.rfMuxPloy, 0xc3),
                            0x1b, [r.tfC]);
      && s3[0x17 - ShadowStart] == MaskedByte(shadow[0x17 - ShadowStart], r.openD, 0x08)
      && s3[0x1a - ShadowStart] == MaskedByte(shadow[0x1a - ShadowStart], r.rfMuxPloy, 0xc3)
      && s3[0x1b - ShadowStart] == r.tfC
      && s3[0x10 - ShadowStart] == shadow[0x10 - ShadowStart]
      && s3[0x08 - ShadowStart] == shadow[0x08 - ShadowStart]
      && s3[0x09 - ShadowStart] == shadow[0x09 - ShadowStart]
  {
    var s1 := MaskedStore(shadow, 0x17, r.openD, 0x08);
    var s2 := MaskedStore(s1, 0x1a, r.rfMuxPloy, 0xc3);
    var s3 := Store(s2, 0x1b, [r.tfC]);
    assert s3[0x1b - ShadowStart..0x1b - ShadowStart + 1] == [r.tfC];
  }

  /** The last three mux writes touch only registers 0x10, 0x08 and 0x09. */
  lemma MuxFieldsLate(s3: seq<bv8>, cap: bv8)
    requires |s3| == NumRegs
    ensures var s := MaskedStore(MaskedStore(MaskedStore(s3, 0x10, cap, 0x0b), 0x08, 0x00, 0x3f), 0x09, 0x00, 0x3f);
      && s[0x17 - ShadowStart] == s3[0x17 - ShadowStart]
      && s[0x1a - ShadowStart] == s3[0x1a - ShadowStart]
      && s[0x1b - ShadowStart] == s3[0x1b - ShadowStart]
      && s[0x10 - ShadowStart] == MaskedByte(s3[0x10 - ShadowStart], cap, 0x0b)
      && s[0x08 - ShadowStart] == MaskedByte(s3[0x08 - ShadowStart], 0x00, 0x3f)
      && s[0x09 - ShadowStart] == MaskedByte(s3[0x09 - ShadowStart], 0x00, 0x3f)
  {
  }

  lemma MuxShadowFrame(shadow: seq<bv8>, r: FreqRange, sel: XtalCapValue)
    requires |shadow| == NumRegs
    ensures var s := MuxShadow(shadow, r, sel);
      forall i :: 0 <= i < NumRegs && !(i in MuxTouched) ==> s[i] == shadow[i]
  {
  }

  /** After the mux writes each routed field is merged under its mask into its
      register (`MaskedByte` keeps the bits outside the mask), the tracking-filter
      byte is replaced whole, and every other register is untouched: no write of the
      sequence overwrites another. */
  lemma MuxRegisters(shadow: seq<bv8>, r: FreqRange, sel: XtalCapValue)
    requires |shadow| == NumRegs
    ensures var s := RunShadow(shadow, MuxOps(r, sel));
      && s[0x17 - ShadowStart] == MaskedByte(shadow[0x17 - ShadowStart], r.openD, 0x08)
      && s[0x1a - ShadowStart] == MaskedByte(shadow[0x1a - ShadowStart], r.rfMuxPloy, 0xc3)
      && s[0x1b - ShadowStart] == r.tfC
      && s[0x10 - ShadowStart] == MaskedByte(shadow[0x10 - ShadowStart], CapField(r, sel) | Drive(sel), 0x0b)
      && s[0x08 - ShadowStart] == MaskedByte(shadow[0x08 - ShadowStart], 0x00, 0x3f)
      && s[0x09 - ShadowStart] == MaskedByte(shadow[0x09 - ShadowStart], 0x00, 0x3f)
      && forall i :: 0 <= i < NumRegs && !(i in MuxTouched) ==> s[i] == shadow[i]
  {
    MuxRun(shadow, r, sel);
    MuxShadowFields(shadow, r, sel);
    MuxShadowFrame(shadow, r, sel);
  }
}
