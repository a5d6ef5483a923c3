/** IF bandwidth selection of `set_bandwidth` (r820t.rs:304-373): three fixed wide
    bands, or two optional high-pass corners followed by a search of the low-pass
    filter table; the result is the new IF frequency and the bytes for registers
    0x0a and 0x0b. */
module Bandwidth {
  import opened Bits
  import opened Shadow

  /** The low-pass filter table, in Hz, widest first. */
  const LowPassTable: seq<int> := [1700000, 1600000, 1550000, 1450000, 1200000,
                                   900000, 700000, 550000, 450000, 350000]
  /** The two high-pass corner allowances, in Hz. */
  const HpBw1: int := 350000
  const HpBw2: int := 380000
  /** The IF of the low-pass path before the corners and the filter are accounted for. */
  const LowPassIf: int := 2300000

  /** The low-pass table strictly descends. */
  lemma LowPassDescending()
    ensures |LowPassTable| == 10
    ensures forall i, j :: 0 <= i < j < |LowPassTable| ==> LowPassTable[j] < LowPassTable[i]
  {
  }

  /** The index the scan of r820t.rs:356-363 settles on when it starts at entry i:
      it moves on while the next entry still covers `bw`. */
  function LpIndexFrom(bw: int, i: nat): (r: nat)
    requires i < |LowPassTable|
    ensures i <= r < |LowPassTable|
    ensures forall j :: i < j <= r ==> bw <= LowPassTable[j]
    ensures r + 1 == |LowPassTable| || LowPassTable[r + 1] < bw
    decreases |LowPassTable| - i
  {
    if i + 1 == |LowPassTable| || LowPassTable[i + 1] < bw then i else LpIndexFrom(bw, i + 1)
  }

  /** The low-pass filter for a remaining budget `bw`: the narrowest entry that still
      covers it, or entry 0 when none does. */
  function LpIndex(bw: int): (r: nat)
    requires bw <= LowPassTable[0]
    ensures r < |LowPassTable| && bw <= LowPassTable[r]
    ensures forall j :: r < j < |LowPassTable| ==> LowPassTable[j] < bw
  {
    LowPassDescending();
    LpIndexFrom(bw, 0)
  }

  /** The scan as the driver runs it: keep the index of the last entry not below `bw`,
      stop at the first entry below it. */
  method LowPassIndex(bw: int) returns (lpIdx: nat)
    requires bw <= LowPassTable[0]
    ensures lpIdx == LpIndex(bw)
  {
    lpIdx := 0;
    var i := 0;
    while i < |LowPassTable|
      invariant 0 <= i <= |LowPassTable|
      invariant lpIdx == if i == 0 then 0 else i - 1
      invariant forall j :: 0 <= j < i ==> bw <= LowPassTable[j]
    {
      if bw > LowPassTable[i] {
        break;
      }
      lpIdx := i;
      i := i + 1;
    }
    LowPassDescending();
  }

  /** The IF frequency and the two register bytes `set_bandwidth` settles on. */
  datatype BwSetting = BwSetting(intFreq: int, reg0a: bv8, reg0b: bv8)

  /** The budget left for the low-pass filter after the corners, and the corners taken. */
  function Corner2(bw: int): bool { bw > LowPassTable[0] + HpBw1 }
  function AfterCorner2(bw: int): int { if Corner2(bw) then bw - HpBw2 else bw }
  function Corner1(bw: int): bool { AfterCorner2(bw) > LowPassTable[0] }
  function LowPassBudget(bw: int): int { if Corner1(bw) then AfterCorner2(bw) - HpBw1 else AfterCorner2(bw) }
  function Corners(bw: int): int
  {
    (if Corner2(bw) then HpBw2 else 0) + (if Corner1(bw) then HpBw1 else 0)
  }

  /** The filter low nibble of register 0x0b: 15 - index, so that the index can be
      read back from it. */
  function FilterNibble(lpIdx: nat): (b: bv8)
    requires lpIdx < 16
    ensures b < 16 && 15 - b as int == lpIdx
  {
    ByteRoundTrip(15 - lpIdx);
    (15 - lpIdx) as bv8
  }

  /** The `as i32` reinterpretation of the unsigned bandwidth argument: values from
      2^31 on wrap to negative. */
  function AsI32(u: nat): (r: int)
    requires u < 0x1_0000_0000
    ensures -0x8000_0000 <= r < 0x8000_0000 && (u - r) % 0x1_0000_0000 == 0
    ensures u < 0x8000_0000 ==> r == u
  {
    if u < 0x8000_0000 then u else u - 0x1_0000_0000
  }

  /** `set_bandwidth(bw)` once the bandwidth has been reinterpreted as an i32. Bit 0x10
      of register 0x0a is set exactly for the three wide bands, and the 4.57 MHz IF is
      chosen exactly for channels wider than 6 MHz. */
  function BwPlan(bw: int): (s: BwSetting)
    requires -0x8000_0000 <= bw < 0x8000_0000
    ensures s.reg0a == 0x10 <==> bw > LowPassTable[0] + HpBw1 + HpBw2
    ensures s.intFreq == 4570000 <==> bw > 6000000
  {
    if bw > 7000000 then BwSetting(4570000, 0x10, 0x0b)
    else if bw > 6000000 then BwSetting(4570000, 0x10, 0x2a)
    else if bw > LowPassTable[0] + HpBw1 + HpBw2 then BwSetting(3570000, 0x10, 0x6b)
    else
      var budget := LowPassBudget(bw);
      var lpIdx := LpIndex(budget);
      var realBw := Corners(bw) + LowPassTable[lpIdx];
      var reg0b := 0x80 | (if Corner2(bw) then 0x00 else 0x20) | (if Corner1(bw) then 0x00 else 0x40)
                   | FilterNibble(lpIdx);
      BwSetting(LowPassIf + Corners(bw) - realBw / 2, 0x00, reg0b)
  }

  /** The selection as `set_bandwidth` runs it (r820t.rs:309-364): wide bands first,
      otherwise the corners are taken one by one from the budget while the IF and the
      achieved bandwidth are accumulated, then the filter table is scanned. */
  method BandwidthSetting(bw0: int) returns (s: BwSetting)
    requires -0x8000_0000 <= bw0 < 0x8000_0000
    ensures s == BwPlan(bw0)
  {
    if bw0 > 7000000 {
      return BwSetting(4570000, 0x10, 0x0b);
    } else if bw0 > 6000000 {
      return BwSetting(4570000, 0x10, 0x2a);
    } else if bw0 > LowPassTable[0] + HpBw1 + HpBw2 {
      return BwSetting(3570000, 0x10, 0x6b);
    }
    var bw := bw0;
    var intFreq := LowPassIf;
    var reg0b: bv8 := 0x80;
    var realBw := 0;
    if bw > LowPassTable[0] + HpBw1 {
      bw := bw - HpBw2;
      intFreq := intFreq + HpBw2;
      realBw := realBw + HpBw2;
    } else {
      reg0b := reg0b | 0x20;
    }
    if bw > LowPassTable[0] {
      bw := bw - HpBw1;
      intFreq := intFreq + HpBw1;
      realBw := realBw + HpBw1;
    } else {
      reg0b := reg0b | 0x40;
    }
    assert bw == LowPassBudget(bw0) && realBw == Corners(bw0) && intFreq == LowPassIf + realBw;
    assert reg0b == 0x80 | (if Corner2(bw0) then 0x00 else 0x20) | (if Corner1(bw0) then 0x00 else 0x40);
    var lpIdx := LowPassIndex(bw);
    reg0b := reg0b | FilterNibble(lpIdx);
    realBw := realBw + LowPassTable[lpIdx];
    intFreq := intFreq - realBw / 2;
    s := BwSetting(intFreq, 0x00, reg0b);
    BwPlanLow(bw0);
  }

  /** The low-pass branch of `BwPlan`, piece by piece. */
  lemma BwPlanLow(bw: int)
    requires -0x8000_0000 <= bw <= LowPassTable[0] + HpBw1 + HpBw2
    ensures LowPassBudget(bw) <= LowPassTable[0]
    ensures var lpIdx := LpIndex(LowPassBudget(bw));
      BwPlan(bw) == BwSetting(LowPassIf + Corners(bw) - (Corners(bw) + LowPassTable[lpIdx]) / 2, 0x00,
                              0x80 | (if Corner2(bw) then 0x00 else 0x20) | (if Corner1(bw) then 0x00 else 0x40)
                              | FilterNibble(lpIdx))
  {
  }

  /** The register writes of `set_bandwidth`: the 0x10 bit of 0x0a, then all of 0x0b
      but bit 0x10. */
  function BwOps(s: BwSetting): Prog
  {
    Nil.Then(Masked(0x0a, s.reg0a, 0x10)).Then(Masked(0x0b, s.reg0b, 0xef))
  }

  /** Above 2430000 Hz the three wide bands: 8 MHz, 7 MHz and 6 MHz channels. */
  lemma BwWideBands(bw: int)
    requires 2430000 < bw < 0x8000_0000
    ensures BwPlan(bw).reg0a == 0x10
    ensures BwPlan(bw).intFreq == (if bw > 6000000 then 4570000 else 3570000)
    ensures BwPlan(bw).reg0b == (if bw > 7000000 then 0x0b else if bw > 6000000 then 0x2a else 0x6b)
  {
  }

  /** At or below 2430000 Hz: the corners are taken exactly when the budget allows them
      (380 kHz above 2050000 Hz; 350 kHz above 2080000 Hz after it, above 1700000 Hz
      without it; bit 0x20 / 0x40 set otherwise), the chosen filter covers the remaining budget and
      is the narrowest that does, its index is in the low nibble of 0x0b, and the IF is
      centred on the achieved bandwidth, never below 1450000 Hz. */
  lemma BwLowPass(bw: int)
    requires 0 <= bw <= 2430000
    ensures var s := BwPlan(bw);
      var budget := LowPassBudget(bw);
      var lpIdx := LpIndex(budget);
      && s.reg0a == 0x00
      && budget <= LowPassTable[0]
      && (Corner2(bw) <==> bw > 2050000)
      && (Corner1(bw) <==> bw > (if bw > 2050000 then 2080000 else 1700000))
      && (Corner2(bw) <==> s.reg0b & 0x20 == 0)
      && (Corner1(bw) <==> s.reg0b & 0x40 == 0)
      && s.reg0b & 0x80 == 0x80
      && s.reg0b & 0x0f == FilterNibble(lpIdx)
      && budget <= LowPassTable[lpIdx]
      && (forall j :: lpIdx < j < |LowPassTable| ==> LowPassTable[j] < budget)
      && s.intFreq == LowPassIf + Corners(bw) - (Corners(bw) + LowPassTable[lpIdx]) / 2
      && 1450000 <= s.intFreq < LowPassIf + Corners(bw)
  {
    BwLowPassBits(bw);
    BwLowPassIf(bw);
  }

  /** The register bytes of the low-pass path. */
  lemma BwLowPassBits(bw: int)
    requires 0 <= bw <= 2430000
    ensures LowPassBudget(bw) <= LowPassTable[0]
    ensures var s := BwPlan(bw);
      && s.reg0a == 0x00
      && (Corner2(bw) <==> s.reg0b & 0x20 == 0)
      && (Corner1(bw) <==> s.reg0b & 0x40 == 0)
      && s.reg0b & 0x80 == 0x80
      && s.reg0b & 0x0f == FilterNibble(LpIndex(LowPassBudget(bw)))
  {
    var budget := LowPassBudget(bw);
    assert budget <= LowPassTable[0];
    var lpIdx := LpIndex(budget);
    var n := FilterNibble(lpIdx);
    assert n < 16;
    BwPlanLow(bw);
    FilterByte(Corner2(bw), Corner1(bw), n);
  }

  /** The fields of the register 0x0b byte: bit 0x80 always, 0x20 and 0x40 for the
      corners not taken, the filter nibble low. */
  lemma FilterByte(corner2: bool, corner1: bool, n: bv8)
    requires n < 16
    ensures var b := 0x80 | (if corner2 then 0x00 else 0x20) | (if corner1 then 0x00 else 0x40) | n;
      && (corner2 <==> b & 0x20 == 0)
      && (corner1 <==> b & 0x40 == 0)
      && b & 0x80 == 0x80
      && b & 0x0f == n
  {
  }

  /** The corners, the filter and the IF of the low-pass path. */
  lemma BwLowPassIf(bw: int)
    requires 0 <= bw <= 2430000
    ensures LowPassBudget(bw) <= LowPassTable[0]
    ensures var s := BwPlan(bw);
      var budget := LowPassBudget(bw);
      var lpIdx := LpIndex(budget);
      && (Corner2(bw) <==> bw > 2050000)
      && (Corner1(bw) <==> bw > (if bw > 2050000 then 2080000 else 1700000))
      && budget <= LowPassTable[lpIdx]
      && (forall j :: lpIdx < j < |LowPassTable| ==> LowPassTable[j] < budget)
      && s.intFreq == LowPassIf + Corners(bw) - (Corners(bw) + LowPassTable[lpIdx]) / 2
      && 1450000 <= s.intFreq < LowPassIf + Corners(bw)
  {
    var lpIdx := LpIndex(LowPassBudget(bw));
    assert 350000 <= LowPassTable[lpIdx] <= 1700000;
  }

  /** Every bandwidth gives an IF between 1450000 Hz and 4570000 Hz. */
  lemma BwIntFreqRange(bw: int)
    requires -0x8000_0000 <= bw < 0x8000_0000
    ensures 1450000 <= BwPlan(bw).intFreq <= 4570000
  {
    if bw <= LowPassTable[0] + HpBw1 + HpBw2 {
      var lpIdx := LpIndex(LowPassBudget(bw));
      assert 350000 <= LowPassTable[lpIdx] <= 1700000;
    }
  }

  /** A bandwidth argument of 2^31 or more wraps to a negative i32: no corner is
      taken, the narrowest (350 kHz) filter is chosen and the IF becomes 2125000 Hz. */
  lemma BwWrapped(bwIn: nat)
    requires 0x8000_0000 <= bwIn < 0x1_0000_0000
    ensures AsI32(bwIn) < 0
    ensures BwPlan(AsI32(bwIn)) == BwSetting(2125000, 0x00, 0xe6)
  {
    var bw := AsI32(bwIn);
    assert !Corner2(bw) && !Corner1(bw);
    assert LpIndex(bw) == 9;
  }

  /** The 2048000 Hz setting: only the 350 kHz corner fits, the widest filter is chosen,
      the IF is 1625000 Hz and register 0x0b gets 0xaf. */
  lemma BwExample()
    ensures BwPlan(2048000) == BwSetting(1625000, 0x00, 0xaf)
  {
    assert !Corner2(2048000) && Corner1(2048000);
    assert LowPassBudget(2048000) == 1698000;
    assert LpIndex(1698000) == 0;
  }
}
