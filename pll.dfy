/** Frequency synthesis arithmetic of `set_pll` (r820t.rs:446-547): the mixer-divider
    search, the divider-select code and its fine-tune correction, the integer divider
    and its ni/si split, the fractional remainder and the sigma-delta modulator word. */
module Pll {
  import opened Bits
  import opened Shadow

  datatype Option<T> = None | Some(value: T)

  /** The VCO operating window, in kHz. */
  const VcoMin: int := 1770000
  const VcoMax: int := 2 * VcoMin
  /** The fixed VCO power reference the fine-tune reading is compared with. */
  const VcoPowerRef: bv8 := 2
  /** The largest integer divider the hardware accepts: 128 / VcoPowerRef - 1. */
  const NintMax: int := 128 / 2 - 1
  /** The smallest integer divider: `ni` and `si` are taken from nint - 13. */
  const NintMin: int := 13
  /** The step counter of the modulator loop stops the accumulation at this value. */
  const SdmStepLimit: int := 0x8000

  /** A frequency in Hz rounded to the nearest kHz, halves rounding up. */
  function Khz(hz: nat): (k: nat)
    ensures hz < 1000 * k + 500 && 1000 * k <= hz + 500
  {
    (hz + 500) / 1000
  }

  /** The powers of two the divider search tries, in increasing order. */
  predicate IsMixDiv(d: int)
  {
    d == 2 || d == 4 || d == 8 || d == 16 || d == 32 || d == 64
  }

  /** The VCO runs inside its window when the target is multiplied by `mixDiv`. */
  predicate InVcoRange(freqKhz: int, mixDiv: int)
  {
    VcoMin <= freqKhz * mixDiv < VcoMax
  }

  /** The first divider among d, 2d, ... up to 64 that puts the VCO in its window. */
  function MixDivFrom(freqKhz: nat, d: nat): (r: Option<nat>)
    requires IsMixDiv(d) || d == 128
    ensures r.Some? ==> IsMixDiv(r.value) && d <= r.value && InVcoRange(freqKhz, r.value)
    ensures forall e :: IsMixDiv(e) && d <= e && (r.None? || e < r.value) ==> !InVcoRange(freqKhz, e)
    decreases 128 - d
  {
    if d > 64 then None
    else if InVcoRange(freqKhz, d) then Some(d)
    else MixDivFrom(freqKhz, 2 * d)
  }

  /** The divider the search of r820t.rs:470-480 accepts, if any: a candidate that
      puts the VCO in its window, and none when no candidate does. */
  function MixDiv(freqKhz: nat): (r: Option<nat>)
    ensures r.Some? ==> IsMixDiv(r.value) && InVcoRange(freqKhz, r.value)
    ensures r.None? ==> forall e :: IsMixDiv(e) ==> !InVcoRange(freqKhz, e)
  {
    MixDivFrom(freqKhz, 2)
  }

  /** Two candidate dividers a factor of two or more apart cannot both put the VCO in
      its window, since the window spans exactly one octave. */
  lemma VcoRangeUnique(freqKhz: nat, a: nat, b: nat)
    requires IsMixDiv(a) && IsMixDiv(b)
    requires InVcoRange(freqKhz, a) && InVcoRange(freqKhz, b)
    ensures a == b
  {
  }

  /** The search accepts d exactly when d is a candidate that puts the VCO in its
      window: the first such candidate is the only one. */
  lemma MixDivIff(freqKhz: nat, d: nat)
    ensures MixDiv(freqKhz) == Some(d) <==> IsMixDiv(d) && InVcoRange(freqKhz, d)
  {
    if IsMixDiv(d) && InVcoRange(freqKhz, d) {
      if MixDiv(freqKhz).Some? {
        VcoRangeUnique(freqKhz, d, MixDiv(freqKhz).value);
      }
    }
  }

  /** The search succeeds exactly for targets from 27657 kHz up to, not including,
      1770000 kHz: the six windows tile that span without a gap. */
  lemma MixDivCoverage(freqKhz: nat)
    ensures MixDiv(freqKhz).Some? <==> 27657 <= freqKhz < 1770000
  {
    if 27657 <= freqKhz < 1770000 {
      var d := if freqKhz >= 885000 then 2 else if freqKhz >= 442500 then 4
        else if freqKhz >= 221250 then 8 else if freqKhz >= 110625 then 16
        else if freqKhz >= 55313 then 32 else 64;
      assert InVcoRange(freqKhz, d);
    }
  }

  /** Base-2 logarithm, rounded down. */
  function Log2(n: nat): nat
  {
    if n <= 1 then 0 else 1 + Log2(n / 2)
  }

  /** The divider search of r820t.rs:465-480 together with the halving loop that
      derives the divider-select code. When no divider fits, the loop runs out with
      `mixDiv` doubled past 64 and `divNum` still 0. */
  method FindMixDiv(freqKhz: nat) returns (found: bool, mixDiv: nat, divNum: nat)
    ensures found <==> MixDiv(freqKhz).Some?
    ensures found ==> mixDiv == MixDiv(freqKhz).value && divNum == Log2(mixDiv) - 1
    ensures found ==> IsMixDiv(mixDiv) && InVcoRange(freqKhz, mixDiv) && divNum < 6
    ensures (mixDiv, divNum) == MixDivSearch(freqKhz)
  {
    mixDiv := 2;
    divNum := 0;
    found := false;
    while mixDiv <= 64
      invariant IsMixDiv(mixDiv) || mixDiv == 128
      invariant MixDivFrom(freqKhz, mixDiv) == MixDiv(freqKhz)
      invariant divNum == 0
      decreases 128 - mixDiv
    {
      if VcoMin <= freqKhz * mixDiv && freqKhz * mixDiv < VcoMax {
        var divBuf := mixDiv;
        while divBuf > 2
          invariant IsMixDiv(divBuf)
          invariant divNum + Log2(divBuf) == Log2(mixDiv)
          decreases divBuf
        {
          divBuf := divBuf / 2;
          divNum := divNum + 1;
        }
        found := true;
        break;
      }
      mixDiv := mixDiv * 2;
    }
  }

  /** The fine-tune reading: bits 4-5 of status byte 4 after bit reversal. */
  function FineTune(status4: bv8): (t: bv8)
    ensures t <= 3
  {
    (BitReverse(status4) & 0x30) >> 4
  }

  /** The divider-select code after the fine-tune correction of r820t.rs:485-490:
      one less when the reading is above the power reference, one more when below.
      A decrement below zero has no valid code. */
  function AdjustDivNum(divNum: nat, tune: bv8): (r: Option<nat>)
    ensures r.None? <==> divNum == 0 && tune > VcoPowerRef
    ensures r.Some? ==> r.value - divNum == (if tune > VcoPowerRef then -1 else if tune < VcoPowerRef then 1 else 0)
  {
    if tune > VcoPowerRef then (if divNum == 0 then None else Some(divNum - 1))
    else if tune < VcoPowerRef then Some(divNum + 1)
    else Some(divNum)
  }

  /** The integer divider of r820t.rs:495: how many whole steps of twice the crystal
      frequency the VCO frequency holds. */
  function Nint(vcoHz: nat, xtal: nat): (n: nat)
    requires 0 < xtal
    ensures 2 * xtal * n <= vcoHz < 2 * xtal * (n + 1)
  {
    vcoHz / (2 * xtal)
  }

  /** The split of the integer divider into `ni` and `si` (r820t.rs:501-502). */
  function Ni(nint: int): int
  {
    (nint - NintMin) / 4
  }

  function Si(nint: int): int
  {
    nint - 4 * Ni(nint) - NintMin
  }

  /** For every integer divider the hardware accepts, `si` is a 2-bit field and the
      pair (ni, si) gives the divider back. */
  lemma NiSiSplit(nint: int)
    requires NintMin <= nint <= NintMax
    ensures 0 <= Si(nint) <= 3 && 0 <= Ni(nint) <= 12
    ensures nint == 4 * Ni(nint) + Si(nint) + NintMin
  {
  }

  /** The byte written to register 0x14: `ni` in the low six bits, `si` in the top two. */
  function NiSiByte(nint: int): (b: nat)
    requires NintMin <= nint <= NintMax
    ensures b < 256 && b % 64 == Ni(nint) && b / 64 == Si(nint)
  {
    NiSiSplit(nint);
    Ni(nint) + Si(nint) * 64
  }

  /** The fractional remainder of the VCO frequency, in kHz (r820t.rs:496). */
  function VcoFra(vcoHz: nat, xtal: nat): (f: nat)
    requires 0 < xtal
    ensures 1000 * f <= vcoHz - 2 * xtal * Nint(vcoHz, xtal) < 2 * xtal
  {
    (vcoHz - 2 * xtal * Nint(vcoHz, xtal)) / 1000
  }

  /** The step counter values of the modulator loop up to its limit. */
  predicate IsSdmStep(n: int)
  {
    n == 2 || n == 4 || n == 8 || n == 16 || n == 32 || n == 64 || n == 128 || n == 256
    || n == 512 || n == 1024 || n == 2048 || n == 4096 || n == 8192 || n == 16384 || n == 32768
  }

  /** A bound on the step counter while the loop can still go on. */
  function SdmBound(refKhz: nat): nat
  {
    2 * (refKhz + SdmStepLimit)
  }

  /** The sigma-delta loop of r820t.rs:513-524 with the step counter doubling each
      round, from remainder `fra`, counter `n` and word `sdm`: the final word and counter.
      While the remainder exceeds the current threshold 2·refKhz/n, the weight
      32768/(n/2) is added and the threshold subtracted; the loop stops when the
      remainder is at most 1, or after an accumulation once n has reached 0x8000. */
  function SdmFrom(fra: int, n: nat, sdm: nat, refKhz: nat): (r: (nat, nat))
    requires 2 <= n <= SdmBound(refKhz)
    ensures sdm <= r.0 && n <= r.1
    decreases SdmBound(refKhz) - n
  {
    if fra <= 1 then (sdm, n)
    else if fra > 2 * refKhz / n then
      var sdm' := sdm + 32768 / (n / 2);
      if n >= SdmStepLimit then (sdm', n)
      else SdmFrom(fra - 2 * refKhz / n, 2 * n, sdm', refKhz)
    else
      DivBelowTwo(2 * refKhz, n);
      SdmFrom(fra, 2 * n, sdm, refKhz)
  }

  /** The modulator word for remainder `fra` kHz and reference `refKhz`. It fits 16
      bits (at most 65534), so the two bytes of registers 0x16 and 0x15 carry it whole. */
  function Sdm(fra: int, refKhz: nat): (r: nat)
    ensures r <= 65534
  {
    SdmFromFits(fra, 2, 0, refKhz);
    SdmFrom(fra, 2, 0, refKhz).0
  }

  /** For a counter value n up to the limit the weight 32768/(n/2) is exactly 65536/n,
      and the weights still to come from n on add up to less than 131072/n. */
  lemma SdmStepWeights(n: int)
    requires IsSdmStep(n)
    ensures 32768 / (n / 2) == 65536 / n && 131072 / n == 2 * (65536 / n) && n * (65536 / n) == 65536
    ensures n < SdmStepLimit ==> IsSdmStep(2 * n) && 131072 / (2 * n) == 65536 / n
  {
  }

  lemma DivAtMostOne(a: nat, b: nat)
    requires 0 < a <= b
    ensures a / b <= 1
  {
  }

  lemma WeightPositive(n: int)
    requires 2 <= n <= 65536
    ensures 1 <= 32768 / (n / 2)
  {
  }

  lemma DivNonNegative(a: nat, b: int)
    requires 0 < b
    ensures 0 <= a / b
  {
  }

  lemma DivBelowTwo(a: nat, n: nat)
    requires 0 < n && 2 <= a / n
    ensures 2 * n <= a
  {
  }

  /** The word never exceeds 65534, so it fits the two 8-bit registers: from counter n
      on, the weights still to come add up to less than 131072 / n. */
  lemma {:induction false} SdmFromFits(fra: int, n: nat, sdm: nat, refKhz: nat)
    requires 2 <= n <= SdmBound(refKhz)
    requires n <= SdmStepLimit ==> IsSdmStep(n) && sdm + 131072 / n <= 65536
    requires n > SdmStepLimit ==> 2 * SdmStepLimit <= n && sdm <= 65533
    ensures SdmFrom(fra, n, sdm, refKhz).0 <= 65534
    decreases SdmBound(refKhz) - n, 1
  {
    if fra <= 1 {
    } else if fra > 2 * refKhz / n {
      SdmFitsTake(fra, n, sdm, refKhz);
    } else {
      SdmFitsSkip(fra, n, sdm, refKhz);
    }
  }

  /** Taking the weight at counter n below the limit leaves the budget 131072 / (2n)
      for the rounds after it. */
  lemma SdmBudgetTake(n: int, sdm: nat)
    requires IsSdmStep(n) && n < SdmStepLimit && sdm + 131072 / n <= 65536
    ensures var w := 32768 / (n / 2);
      IsSdmStep(2 * n) && 2 * n <= SdmStepLimit && 1 <= w && sdm + w + 131072 / (2 * n) <= 65536
  {
    SdmStepWeights(n);
  }

  /** A round that takes its weight stays within the budget 131072 / n. */
  lemma {:induction false} SdmFitsTake(fra: int, n: nat, sdm: nat, refKhz: nat)
    requires 2 <= n <= SdmBound(refKhz) && 1 < fra && 2 * refKhz / n < fra
    requires n <= SdmStepLimit ==> IsSdmStep(n) && sdm + 131072 / n <= 65536
    requires n > SdmStepLimit ==> 2 * SdmStepLimit <= n && sdm <= 65533
    ensures SdmFrom(fra, n, sdm, refKhz).0 <= 65534
    decreases SdmBound(refKhz) - n, 0
  {
    if n < SdmStepLimit {
      SdmBudgetTake(n, sdm);
      SdmFromTakes(fra, n, sdm, refKhz);
      var t, w := 2 * refKhz / n, 32768 / (n / 2);
      SdmFromFits(fra - t, 2 * n, sdm + w, refKhz);
    } else {
      SdmFromLast(fra, n, sdm, refKhz);
      if n > SdmStepLimit {
        DivAtMostOne(32768, n / 2);
      }
    }
  }

  /** A round that takes nothing hands the same budget on to the next counter. */
  lemma {:induction false} SdmFitsSkip(fra: int, n: nat, sdm: nat, refKhz: nat)
    requires 2 <= n <= SdmBound(refKhz) && 1 < fra && fra <= 2 * refKhz / n
    requires n <= SdmStepLimit ==> IsSdmStep(n) && sdm + 131072 / n <= 65536
    requires n > SdmStepLimit ==> 2 * SdmStepLimit <= n && sdm <= 65533
    ensures SdmFrom(fra, n, sdm, refKhz).0 <= 65534
    decreases SdmBound(refKhz) - n, 0
  {
    assert 2 * n <= 2 * refKhz by {
      DivBelowTwo(2 * refKhz, n);
    }
    if n < SdmStepLimit {
      assert IsSdmStep(2 * n) && sdm + 131072 / (2 * n) <= 65536 by {
        SdmStepWeights(n);
      }
    }
    SdmFromSkips(fra, n, sdm, refKhz);
    SdmFromFits(fra, 2 * n, sdm, refKhz);
  }

  /** With a reference below 0x8000 kHz (32.768 MHz), the loop ends by the time the
      counter reaches 0x8000: at most 15 rounds. */
  lemma {:induction false} SdmFromSteps(fra: int, n: nat, sdm: nat, refKhz: nat)
    requires refKhz < SdmStepLimit && IsSdmStep(n)
    ensures SdmFrom(fra, n, sdm, refKhz).1 <= SdmStepLimit
    decreases SdmBound(refKhz) - n, 1
  {
    if fra <= 1 {
    } else if fra > 2 * refKhz / n {
      if n < SdmStepLimit {
        SdmStepsTake(fra, n, sdm, refKhz);
      }
    } else {
      SdmStepsSkip(fra, n, sdm, refKhz);
    }
  }

  /** The bound after an accumulation below the limit: the rest of the loop starts from 2n. */
  lemma {:induction false} SdmStepsTake(fra: int, n: nat, sdm: nat, refKhz: nat)
    requires refKhz < SdmStepLimit && IsSdmStep(n) && n < SdmStepLimit
    requires 1 < fra && 2 * refKhz / n < fra
    ensures SdmFrom(fra, n, sdm, refKhz).1 <= SdmStepLimit
    decreases SdmBound(refKhz) - n, 0
  {
    var t, w := 2 * refKhz / n, 32768 / (n / 2);
    assert IsSdmStep(2 * n) && 0 <= w by {
      SdmStepWeights(n);
    }
    assert SdmFrom(fra - t, 2 * n, sdm + w, refKhz).1 <= SdmStepLimit by {
      SdmFromSteps(fra - t, 2 * n, sdm + w, refKhz);
    }
    SdmFromTakes(fra, n, sdm, refKhz);
  }

  /** The bound after a round without accumulation, which only happens below the limit. */
  lemma {:induction false} SdmStepsSkip(fra: int, n: nat, sdm: nat, refKhz: nat)
    requires refKhz < SdmStepLimit && IsSdmStep(n)
    requires 1 < fra && fra <= 2 * refKhz / n
    ensures SdmFrom(fra, n, sdm, refKhz).1 <= SdmStepLimit
    decreases SdmBound(refKhz) - n, 0
  {
    DivBelowTwo(2 * refKhz, n);
    assert n < SdmStepLimit;
    SdmStepWeights(n);
    SdmFromSkips(fra, n, sdm, refKhz);
    SdmFromSteps(fra, 2 * n, sdm, refKhz);
  }

  /** One accumulation: a weight w with n·w = 65536, scaled by a = 2·refKhz, covers the
      threshold it consumes, 65536·(a/n), and exceeds it by less than 65536. */
  lemma SdmStepError(a: nat, n: nat, w: nat)
    requires 0 < n && n * w == 65536
    ensures 65536 * (a / n) <= a * w < 65536 * (a / n) + 65536
  {
    var t := a / n;
    assert t * n <= a < t * n + n;
    MulLeft(t * n, a, w);
    MulLeft(a + 1, t * n + n, w);
    assert (t * n) * w == t * (n * w);
    assert (t * n + n) * w == (t * n) * w + n * w;
  }

  lemma MulLeft(a: int, b: int, c: nat)
    requires a <= b
    ensures a * c <= b * c
  {
  }

  /** After an accumulation at counter n the remainder bound holds at 2n with one more
      accumulation counted. */
  lemma RemainderAfterStep(fra: int, t: int, n: nat, k: nat, a: nat)
    requires n * fra <= 2 * a + n * k && a < t * n + n
    ensures 2 * n * (fra - t) <= 2 * a + 2 * n * (k + 1)
  {
    assert 2 * n * (fra - t) == 2 * (n * fra) - 2 * (t * n);
    assert 2 * n * (k + 1) == 2 * (n * k) + 2 * n;
  }

  /** Without an accumulation at counter n the remainder is at most the threshold,
      so the bound holds at 2n. */
  lemma RemainderNoStep(fra: int, t: int, n: nat, a: nat)
    requires 0 <= fra <= t && t * n <= a
    ensures 2 * n * fra <= 2 * a
  {
    MulLeft(fra, t, n);
    assert 2 * n * fra == 2 * (fra * n);
  }

  /** The round of the modulator loop at counter value n: 1 for n = 2, up to 15 for
      n = 0x8000. */
  function SdmRound(n: int): (r: nat)
    requires IsSdmStep(n)
    ensures 1 <= r <= 15 && (r == 15 <==> n == SdmStepLimit)
  {
    if n == 2 then 1 else if n == 4 then 2 else if n == 8 then 3 else if n == 16 then 4
    else if n == 32 then 5 else if n == 64 then 6 else if n == 128 then 7 else if n == 256 then 8
    else if n == 512 then 9 else if n == 1024 then 10 else if n == 2048 then 11
    else if n == 4096 then 12 else if n == 8192 then 13 else if n == 16384 then 14 else 15
  }

  lemma SdmRoundNext(n: int)
    requires IsSdmStep(n) && n < SdmStepLimit
    ensures IsSdmStep(2 * n) && SdmRound(2 * n) == SdmRound(n) + 1
  {
  }

  /** At the last round the remainder left is at most 17. */
  lemma LastRemainder(fra: int, refKhz: nat, k: nat)
    requires refKhz < SdmStepLimit && k < 15 && SdmStepLimit * fra <= 4 * refKhz + SdmStepLimit * k
    ensures fra <= 17
  {
  }

  /** How far a word grown from `sdm` to `r`, scaled by a = 2·refKhz, falls short of
      65536·fra. */
  function Shortfall(fra: int, a: int, r: int, sdm: int): int
  {
    65536 * fra - a * (r - sdm)
  }

  /** Taking one weight w for a threshold t moves the shortfall by a·w - 65536·t. */
  lemma ShortfallStep(fra: int, t: int, a: int, r: int, sdm: int, w: int)
    ensures Shortfall(fra, a, r, sdm) == Shortfall(fra - t, a, r, sdm + w) + 65536 * t - a * w
  {
    assert a * (r - sdm) == a * (r - (sdm + w)) + a * w;
  }

  /** One accumulation keeps the bound: the weight taken overshoots its threshold by
      less than one 65536th, so the shortfall before it is at most one unit lower. */
  lemma CombineAccumulation(before: int, after: int, t: int, aw: int, round: int)
    requires before == after + 65536 * t - aw
    requires 65536 * t <= aw < 65536 * t + 65536
    requires -65536 * (16 - (round + 1)) < after <= 65536 * 17
    ensures -65536 * (16 - round) < before <= 65536 * 17
  {
  }

  /** From counter n, after k accumulations, with n·fra ≤ 4·refKhz + n·k: the rest of
      the loop adds a word that, scaled by 2·refKhz, overshoots 65536·fra by less than
      65536 per round still to come, and falls short of it by at most 65536·17. */
  lemma {:induction false} SdmFromError(fra: int, n: nat, sdm: nat, refKhz: nat, k: nat)
    requires refKhz < SdmStepLimit && IsSdmStep(n) && k < SdmRound(n)
    requires 0 <= fra && n * fra <= 4 * refKhz + n * k
    ensures var d := Shortfall(fra, 2 * refKhz, SdmFrom(fra, n, sdm, refKhz).0, sdm);
      -65536 * (16 - SdmRound(n)) < d <= 65536 * 17
    decreases SdmBound(refKhz) - n, 2
  {
    if fra <= 1 {
      assert SdmFrom(fra, n, sdm, refKhz).0 == sdm;
      assert Shortfall(fra, 2 * refKhz, sdm, sdm) == 65536 * fra;
    } else if fra > 2 * refKhz / n {
      SdmTakeError(fra, n, sdm, refKhz, k);
    } else {
      SdmSkipError(fra, n, sdm, refKhz, k);
    }
  }

  /** The round at counter n takes its weight w for threshold t; the shortfall bound
      for the rest comes from the next counter, or from what the last round leaves. */
  lemma {:induction false} SdmTakeError(fra: int, n: nat, sdm: nat, refKhz: nat, k: nat)
    requires refKhz < SdmStepLimit && IsSdmStep(n) && k < SdmRound(n)
    requires 1 < fra && n * fra <= 4 * refKhz + n * k && fra > 2 * refKhz / n
    ensures var d := Shortfall(fra, 2 * refKhz, SdmFrom(fra, n, sdm, refKhz).0, sdm);
      -65536 * (16 - SdmRound(n)) < d <= 65536 * 17
    decreases SdmBound(refKhz) - n, 1
  {
    var a := 2 * refKhz;
    var t := a / n;
    var r := SdmFrom(fra, n, sdm, refKhz).0;
    var w := 32768 / (n / 2);
    var rest := Shortfall(fra - t, a, r, sdm + w);
    assert Shortfall(fra, a, r, sdm) == rest + 65536 * t - a * w by {
      ShortfallStep(fra, t, a, r, sdm, w);
    }
    assert 65536 * t <= a * w < 65536 * t + 65536 by {
      SdmWeightError(n, refKhz);
    }
    assert -65536 * (16 - (SdmRound(n) + 1)) < rest <= 65536 * 17 by {
      if n < SdmStepLimit {
        SdmFromTakes(fra, n, sdm, refKhz);
        SdmRestError(fra, n, sdm, refKhz, k);
      } else {
        assert w == 2 && r == sdm + w;
        SdmLastError(fra, sdm, refKhz, k);
      }
    }
    CombineAccumulation(Shortfall(fra, a, r, sdm), Shortfall(fra - t, a, r, sdm + w), t, a * w, SdmRound(n));
  }

  /** A round below the last that takes its weight hands the rest of the remainder on
      to the next counter. */
  lemma SdmFromTakes(fra: int, n: nat, sdm: nat, refKhz: nat)
    requires 2 <= n < SdmStepLimit && 1 < fra && 2 * refKhz / n < fra
    ensures var t, w := 2 * refKhz / n, 32768 / (n / 2);
      SdmFrom(fra, n, sdm, refKhz) == SdmFrom(fra - t, 2 * n, sdm + w, refKhz)
  {
  }

  /** A round at or past the limit that takes its weight ends the loop. */
  lemma SdmFromLast(fra: int, n: nat, sdm: nat, refKhz: nat)
    requires SdmStepLimit <= n <= SdmBound(refKhz) && 1 < fra && 2 * refKhz / n < fra
    ensures var w := 32768 / (n / 2);
      SdmFrom(fra, n, sdm, refKhz) == (sdm + w, n)
  {
  }

  /** A round that takes nothing leaves the remainder to the next counter. */
  lemma SdmFromSkips(fra: int, n: nat, sdm: nat, refKhz: nat)
    requires 2 <= n && 2 * n <= 2 * refKhz && 1 < fra && fra <= 2 * refKhz / n
    ensures SdmFrom(fra, n, sdm, refKhz) == SdmFrom(fra, 2 * n, sdm, refKhz)
  {
  }

  /** The weight taken at counter n, scaled by 2·refKhz, exceeds 65536 times the
      threshold it stands for by less than 65536. */
  lemma SdmWeightError(n: int, refKhz: nat)
    requires IsSdmStep(n)
    ensures var t, w := 2 * refKhz / n, 32768 / (n / 2);
      65536 * t <= 2 * refKhz * w < 65536 * t + 65536
  {
    SdmStepWeights(n);
    SdmStepError(2 * refKhz, n, 32768 / (n / 2));
  }

  /** The last round takes weight 2 and leaves at most 17 kHz unconsumed. */
  lemma SdmLastError(fra: int, sdm: nat, refKhz: nat, k: nat)
    requires refKhz < SdmStepLimit && k < 15 && 2 * refKhz / SdmStepLimit < fra
    requires SdmStepLimit * fra <= 4 * refKhz + SdmStepLimit * k
    ensures var t := 2 * refKhz / SdmStepLimit;
      0 < Shortfall(fra - t, 2 * refKhz, sdm + 2, sdm + 2) <= 65536 * 17
  {
    LastRemainder(fra, refKhz, k);
    assert 2 * refKhz * (sdm + 2 - (sdm + 2)) == 0;
  }

  /** After a round below the last takes its weight, the rest of the loop runs from
      counter 2n with one more accumulation counted. */
  /** After a round below the last takes its weight, the remainder left and the round
      count meet the bound's precondition at counter 2n. */
  lemma SdmRestBound(fra: int, n: nat, refKhz: nat, k: nat)
    requires refKhz < SdmStepLimit && IsSdmStep(n) && n < SdmStepLimit && k < SdmRound(n)
    requires 1 < fra && n * fra <= 4 * refKhz + n * k && fra > 2 * refKhz / n
    ensures var t := 2 * refKhz / n;
      0 <= fra - t && 2 * n * (fra - t) <= 4 * refKhz + 2 * n * (k + 1)
    ensures 1 <= 32768 / (n / 2) && IsSdmStep(2 * n) && SdmRound(2 * n) == SdmRound(n) + 1
  {
    var a := 2 * refKhz;
    var t := a / n;
    assert a < t * n + n;
    RemainderAfterStep(fra, t, n, k, a);
    WeightPositive(n);
    SdmRoundNext(n);
  }

  lemma {:induction false} SdmRestError(fra: int, n: nat, sdm: nat, refKhz: nat, k: nat)
    requires refKhz < SdmStepLimit && IsSdmStep(n) && n < SdmStepLimit && k < SdmRound(n)
    requires 1 < fra && n * fra <= 4 * refKhz + n * k && fra > 2 * refKhz / n
    ensures var t, w := 2 * refKhz / n, 32768 / (n / 2);
      var d := Shortfall(fra - t, 2 * refKhz, SdmFrom(fra - t, 2 * n, sdm + w, refKhz).0, sdm + w);
      -65536 * (16 - (SdmRound(n) + 1)) < d <= 65536 * 17
    decreases SdmBound(refKhz) - n, 0
  {
    var t, w := 2 * refKhz / n, 32768 / (n / 2);
    var r := SdmFrom(fra - t, 2 * n, sdm + w, refKhz).0;
    assert -65536 * (16 - (SdmRound(n) + 1)) < Shortfall(fra - t, 2 * refKhz, r, sdm + w) <= 65536 * 17 by {
      SdmRestBound(fra, n, refKhz, k);
      SdmFromError(fra - t, 2 * n, sdm + w, refKhz, k + 1);
    }
  }

  /** The round at counter n takes nothing: the remainder bound carries over to 2n. */
  lemma {:induction false} SdmSkipError(fra: int, n: nat, sdm: nat, refKhz: nat, k: nat)
    requires refKhz < SdmStepLimit && IsSdmStep(n) && k < SdmRound(n)
    requires 1 < fra && n * fra <= 4 * refKhz + n * k && fra <= 2 * refKhz / n
    ensures var d := Shortfall(fra, 2 * refKhz, SdmFrom(fra, n, sdm, refKhz).0, sdm);
      -65536 * (16 - SdmRound(n)) < d <= 65536 * 17
    decreases SdmBound(refKhz) - n, 0
  {
    var a := 2 * refKhz;
    var t := a / n;
    assert 2 * n <= a by {
      DivBelowTwo(a, n);
    }
    assert 2 * n * fra <= 4 * refKhz + 2 * n * k by {
      assert t * n <= a;
      RemainderNoStep(fra, t, n, a);
      assert 0 <= 2 * n * k;
    }
    assert IsSdmStep(2 * n) && SdmRound(2 * n) == SdmRound(n) + 1 by {
      SdmRoundNext(n);
    }
    SdmFromSkips(fra, n, sdm, refKhz);
    SdmFromError(fra, 2 * n, sdm, refKhz, k);
  }

  /** The word, scaled by 2·refKhz/65536, gives the remainder back closely: it
      overshoots by less than 15 kHz (each of at most 15 accumulations takes less
      than 1 kHz more than it consumes) and falls short by at most 17 kHz (what the
      loop leaves unconsumed). */
  lemma SdmError(fra: int, refKhz: nat)
    requires refKhz < SdmStepLimit && 0 <= fra <= 2 * refKhz
    ensures -65536 * 15 < 65536 * fra - 2 * refKhz * Sdm(fra, refKhz) <= 65536 * 17
  {
    SdmFromError(fra, 2, 0, refKhz, 0);
    assert Shortfall(fra, 2 * refKhz, Sdm(fra, refKhz), 0) == 65536 * fra - 2 * refKhz * Sdm(fra, refKhz);
  }

  /** The accumulation loop as the driver runs it, with the counter doubling each round. */
  method SdmWord(fra0: nat, refKhz: nat) returns (sdm: nat, n: nat)
    ensures (sdm, n) == SdmFrom(fra0, 2, 0, refKhz)
    ensures sdm == Sdm(fra0, refKhz) && sdm <= 65534
    ensures refKhz < SdmStepLimit ==> n <= SdmStepLimit
  {
    if refKhz < SdmStepLimit {
      SdmFromSteps(fra0, 2, 0, refKhz);
    }
    sdm := 0;
    n := 2;
    var fra: int := fra0;
    while fra > 1
      invariant 2 <= n <= SdmBound(refKhz)
      invariant SdmFrom(fra, n, sdm, refKhz) == SdmFrom(fra0, 2, 0, refKhz)
      decreases SdmBound(refKhz) - n
    {
      if fra > 2 * refKhz / n {
        if n < SdmStepLimit {
          SdmFromTakes(fra, n, sdm, refKhz);
        } else {
          SdmFromLast(fra, n, sdm, refKhz);
        }
        DivNonNegative(32768, n / 2);
        sdm := sdm + 32768 / (n / 2);
        fra := fra - 2 * refKhz / n;
        if n >= SdmStepLimit {
          break;
        }
      } else {
        DivBelowTwo(2 * refKhz, n);
        SdmFromSkips(fra, n, sdm, refKhz);
      }
      n := n * 2;
    }
  }

  // ---------------------------------------------------------------- the register program

  /** Why a tune attempt cannot be programmed. */
  datatype PllFault =
    | NoMixDiv          // no divider puts the VCO in its window
    | DivNumUnderflow   // the fine-tune correction would take the code below zero
    | NintTooLarge      // the integer divider is above NintMax
    | NintTooSmall      // the integer divider is below NintMin

  /** The outcome of `set_pll`. */
  datatype PllStatus = Locked | LockFailure | OutOfRange(fault: PllFault)

  /** After `p`: divider select off, PLL auto-tune 128 kHz, VCO current at its maximum
      (r820t.rs:452-460). */
  function PllSetup(p: Prog): Prog
  {
    p.Then(Masked(0x10, 0x00, 0x10)).Then(Masked(0x1a, 0x00, 0x0c)).Then(Masked(0x12, 0x06, 0xff))
  }

  /** The read of the five status registers the fine-tune reading is taken from. */
  const StatusRead: Op := Read(0x00, 5)

  /** The divider-select code in the top three bits of register 0x10. */
  function DivOp(divNum: nat): Op
    requires divNum < 8
  {
    Masked(0x10, (divNum * 32) as bv8, 0xe0)
  }

  /** The pw_sdm bit: set for integer-only operation, when there is no fractional part. */
  function PwSdm(fra: nat): (b: bv8)
    ensures b & 0x08 != 0 <==> fra == 0
  {
    if fra == 0 then 0x08 else 0x00
  }

  /** After `p`: the divider byte, the pw_sdm bit, then the modulator word high byte
      first (r820t.rs:503-526). Four operations are added, and the last two, to
      registers 0x16 and 0x15, carry the word whole. */
  function FracOps(p: Prog, nint: int, fra: nat, sdm: nat): (r: Prog)
    requires NintMin <= nint <= NintMax && sdm < 65536
    ensures |Ops(r)| == |Ops(p)| + 4 && Ops(r)[..|Ops(p)|] == Ops(p)
    ensures r.Snoc? && r.init.Snoc? && r.init.last.Bulk? && r.last.Bulk?
    ensures r.init.last.reg == 0x16 && r.last.reg == 0x15
    ensures |r.init.last.data| == 1 && |r.last.data| == 1
    ensures 256 * (r.init.last.data[0] as int) + r.last.data[0] as int == sdm
  {
    var a, b := Bulk(0x14, [NiSiByte(nint) as bv8]), Masked(0x12, PwSdm(fra), 0x08);
    var c, d := Bulk(0x16, [(sdm / 256) as bv8]), Bulk(0x15, [(sdm % 256) as bv8]);
    OpsThen(p, a);
    OpsThen(p.Then(a), b);
    OpsThen(p.Then(a).Then(b), c);
    OpsThen(p.Then(a).Then(b).Then(c), d);
    WordBytes(sdm);
    p.Then(a).Then(b).Then(c).Then(d)
  }

  /** The high and low bytes of a 16-bit word put it back together. */
  lemma WordBytes(sdm: nat)
    requires sdm < 65536
    ensures 256 * ((sdm / 256) as bv8 as int) + (sdm % 256) as bv8 as int == sdm
  {
    ByteRoundTrip(sdm / 256);
    ByteRoundTrip(sdm % 256);
  }

  /** Bit 0x40 of status byte 2, after bit reversal: the PLL has locked. */
  predicate LockBit(poll2: bv8)
  {
    BitReverse(poll2) & 0x40 != 0
  }

  /** After `p`, the lock poll of r820t.rs:527-546 given the two status bytes the device
      would return: a read; if unlocked, the VCO current rewrite and a second read; if
      then locked, the narrowing of PLL auto-tune to 8 kHz. The operations of `p` are
      kept and a status read comes first. */
  function LockOps(p: Prog, poll0: bv8, poll1: bv8): (r: Prog)
    ensures Ops(p) < Ops(r) && Ops(r)[|Ops(p)|] == Read(0x00, 3)
  {
    var polled := LockReads(p, poll0);
    if LockIn(poll0, poll1) then
      assert Ops(polled.Then(Masked(0x1a, 0x08, 0x08)))[..|Ops(polled)|] == Ops(polled);
      polled.Then(Masked(0x1a, 0x08, 0x08))
    else polled
  }

  /** After `p`, the reads of the poll loop and the VCO current rewrite between them. */
  function LockReads(p: Prog, poll0: bv8): (r: Prog)
    ensures Ops(p) < Ops(r) && Ops(r)[|Ops(p)|] == Read(0x00, 3)
  {
    if LockBit(poll0) then p.Then(Read(0x00, 3))
    else
      OpsThen(p, Read(0x00, 3));
      OpsThen(p.Then(Read(0x00, 3)), Masked(0x12, 0x06, 0xff));
      OpsThen(p.Then(Read(0x00, 3)).Then(Masked(0x12, 0x06, 0xff)), Read(0x00, 3));
      p.Then(Read(0x00, 3)).Then(Masked(0x12, 0x06, 0xff)).Then(Read(0x00, 3))
  }

  /** Whether the poll ends locked: the lock bit of the last status byte read. */
  predicate LockIn(poll0: bv8, poll1: bv8)
  {
    if LockBit(poll0) then true else LockBit(poll1)
  }

  /** The whole attempt as a register program with its outcome. */
  datatype PllPlan = PllPlan(ops: Prog, status: PllStatus)

  /** `set_pll(freq)` with crystal `xtal`, status byte 4 `status4` of the status read and
      byte 2 of the two lock polls. A fault ends the attempt where it is detected, with
      what was written so far left in place: with no divider found, only the setup
      writes are issued. */
  function PllProgram(freq: nat, xtal: nat, status4: bv8, poll0: bv8, poll1: bv8): (p: PllPlan)
    requires 0 < xtal
    ensures p.status == OutOfRange(NoMixDiv) <==> MixDiv(Khz(freq)).None?
    ensures p.status == OutOfRange(NoMixDiv) ==> p.ops == PllSetup(Nil)
  {
    var setup := PllSetup(Nil);
    match MixDiv(Khz(freq))
    case None => PllPlan(setup, OutOfRange(NoMixDiv))
    case Some(mixDiv) => PllDivided(setup, freq, mixDiv, Log2(mixDiv) - 1, xtal, status4, poll0, poll1)
  }

  /** The attempt once the search has found a divider: the setup, then the rest. */
  lemma PllProgramFound(freq: nat, xtal: nat, status4: bv8, poll0: bv8, poll1: bv8, mixDiv: nat, divNum: nat)
    requires 0 < xtal && MixDiv(Khz(freq)) == Some(mixDiv) && divNum == Log2(mixDiv) - 1
    ensures divNum < 7
    ensures PllProgram(freq, xtal, status4, poll0, poll1)
         == PllDivided(PllSetup(Nil), freq, mixDiv, divNum, xtal, status4, poll0, poll1)
  {
    assert IsMixDiv(mixDiv);
  }

  /** After `p`, once the search has chosen `mixDiv` with divider-select code `divNum`:
      the status read, the fine-tune correction of the code, the divider-select write
      and the rest. The attempt ends after the status read exactly when the correction
      would take the code below zero. */
  function PllDivided(p: Prog, freq: nat, mixDiv: nat, divNum: nat, xtal: nat,
                      status4: bv8, poll0: bv8, poll1: bv8): (r: PllPlan)
    requires 0 < xtal && divNum < 7
    ensures r.status == OutOfRange(DivNumUnderflow) <==> AdjustDivNum(divNum, FineTune(status4)).None?
    ensures r.status == OutOfRange(DivNumUnderflow) ==> r.ops == p.Then(StatusRead)
    ensures r.status != OutOfRange(NoMixDiv)
  {
    match AdjustDivNum(divNum, FineTune(status4))
    case None => PllPlan(p.Then(StatusRead), OutOfRange(DivNumUnderflow))
    case Some(d) => PllTail(p.Then(StatusRead).Then(DivOp(d)), Vco(freq, mixDiv), xtal, poll0, poll1)
  }

  /** The attempt once the corrected code `divNum` is known: the status read, the
      divider-select write, then the rest. */
  lemma PllDividedAdjusted(p: Prog, freq: nat, mixDiv: nat, divNum0: nat, xtal: nat,
                           status4: bv8, poll0: bv8, poll1: bv8, divNum: nat)
    requires 0 < xtal && divNum0 < 7 && AdjustDivNum(divNum0, FineTune(status4)) == Some(divNum)
    ensures divNum < 8
    ensures PllDivided(p, freq, mixDiv, divNum0, xtal, status4, poll0, poll1)
         == PllTail(p.Then(StatusRead).Then(DivOp(divNum)), Vco(freq, mixDiv), xtal, poll0, poll1)
  {
  }

  /** The VCO frequency, in Hz, for a target frequency and a mixer divider. */
  function Vco(freq: nat, mixDiv: nat): nat
  {
    freq * mixDiv
  }

  /** After `p`, what follows the divider-select write for VCO frequency `vco`: the
      integer divider check, then the divider, pw_sdm and modulator writes and the lock
      poll. An integer divider out of range ends the attempt with nothing more
      written; otherwise it locks exactly when the poll ends locked. */
  function PllTail(p: Prog, vco: nat, xtal: nat, poll0: bv8, poll1: bv8): (r: PllPlan)
    requires 0 < xtal
    ensures r.status.OutOfRange? <==> !(NintMin <= Nint(vco, xtal) <= NintMax)
    ensures r.status.OutOfRange? ==>
      r.ops == p && r.status.fault == (if Nint(vco, xtal) > NintMax then NintTooLarge else NintTooSmall)
    ensures r.status == Locked <==> NintMin <= Nint(vco, xtal) <= NintMax && LockIn(poll0, poll1)
  {
    var nint := Nint(vco, xtal);
    if nint > NintMax then PllPlan(p, OutOfRange(NintTooLarge))
    else if nint < NintMin then PllPlan(p, OutOfRange(NintTooSmall))
    else
      var fra := VcoFra(vco, xtal);
      var sdm := Sdm(fra, Khz(xtal));
      PllPlan(LockOps(FracOps(p, nint, fra, sdm), poll0, poll1),
              if LockIn(poll0, poll1) then Locked else LockFailure)
  }

  /** How many times `op` occurs in a list of operations. */
  function Count(ops: seq<Op>, op: Op): nat
  {
    if ops == [] then 0 else (if ops[0] == op then 1 else 0) + Count(ops[1..], op)
  }

  /** The lock poll reads the status at most twice, and a second time only after a
      first read without lock; the VCO current is raised between the reads exactly
      when the first read fails; PLL auto-tune is narrowed exactly when the poll ends
      locked, and then as the last write. */
  lemma LockPoll(poll0: bv8, poll1: bv8)
    ensures var ops := Ops(LockOps(Nil, poll0, poll1));
      && ops[0] == Read(0x00, 3)
      && Count(ops, Read(0x00, 3)) == (if LockBit(poll0) then 1 else 2)
      && (Masked(0x12, 0x06, 0xff) in ops <==> !LockBit(poll0))
      && (Masked(0x1a, 0x08, 0x08) in ops <==> LockIn(poll0, poll1))
      && (LockIn(poll0, poll1) ==> ops[|ops| - 1] == Masked(0x1a, 0x08, 0x08))
  {
    var ops := Ops(LockOps(Nil, poll0, poll1));
    if LockBit(poll0) {
      assert ops == [Read(0x00, 3), Masked(0x1a, 0x08, 0x08)];
      assert ops[1..][1..] == [];
    } else if LockBit(poll1) {
      assert ops == [Read(0x00, 3), Masked(0x12, 0x06, 0xff), Read(0x00, 3), Masked(0x1a, 0x08, 0x08)];
      assert ops[1..][1..][1..][1..] == [];
      assert Count(ops[1..][1..][1..], Read(0x00, 3)) == 0;
      assert Count(ops[1..][1..], Read(0x00, 3)) == 1;
    } else {
      assert ops == [Read(0x00, 3), Masked(0x12, 0x06, 0xff), Read(0x00, 3)];
      assert ops[1..][1..][1..] == [];
      assert Count(ops[1..][1..], Read(0x00, 3)) == 1;
      assert Count(ops[1..], Read(0x00, 3)) == 1;
    }
  }

  /** The attempt fails for want of a divider exactly when the target, in kHz, is below
      27657 or at least 1770000; the fine-tune correction underflows exactly when the
      divider is 2 (code 0) and the reading is above the power reference. */
  lemma PllFaults(freq: nat, xtal: nat, status4: bv8, poll0: bv8, poll1: bv8)
    requires 0 < xtal
    ensures var p := PllProgram(freq, xtal, status4, poll0, poll1);
      && (p.status == OutOfRange(NoMixDiv) <==> !(27657 <= Khz(freq) < 1770000))
      && (p.status == OutOfRange(DivNumUnderflow) <==>
            MixDiv(Khz(freq)) == Some(2) && FineTune(status4) > VcoPowerRef)
  {
    MixDivCoverage(Khz(freq));
    var m := MixDiv(Khz(freq));
    if m.Some? {
      assert IsMixDiv(m.value);
      assert Log2(m.value) - 1 == 0 <==> m.value == 2;
    }
  }

  /** A programmed attempt (one that locks or fails to lock) had an integer divider the
      hardware accepts, and the divider and fractional part it wrote give the VCO
      frequency back to within 1 kHz: 2·xtal·nint + 1000·fra is at most the VCO
      frequency and less than 1 kHz below it. */
  lemma PllProgrammed(freq: nat, xtal: nat, status4: bv8, poll0: bv8, poll1: bv8)
    requires 0 < xtal
    ensures var p := PllProgram(freq, xtal, status4, poll0, poll1);
      !p.status.OutOfRange? ==>
        && MixDiv(Khz(freq)).Some?
        && var vco := Vco(freq, MixDiv(Khz(freq)).value);
        && NintMin <= Nint(vco, xtal) <= NintMax
        && vco - 1000 < 2 * xtal * Nint(vco, xtal) + 1000 * VcoFra(vco, xtal) <= vco
        && (Khz(xtal) < SdmStepLimit ==> WordClose(vco, xtal))
  {
    var p := PllProgram(freq, xtal, status4, poll0, poll1);
    if !p.status.OutOfRange? && Khz(xtal) < SdmStepLimit {
      assert MixDiv(Khz(freq)).Some?;
      PllWordRoundTrip(Vco(freq, MixDiv(Khz(freq)).value), xtal);
    }
  }

  /** The part of the VCO frequency above 2·xtal·nint, against the part the modulator
      word stands for, 2·(xtal in kHz)·1000·sdm/65536: they differ by less than 15 kHz
      one way and 18 kHz the other. */
  predicate WordClose(vco: nat, xtal: nat)
    requires 0 < xtal
  {
    var sdm := Sdm(VcoFra(vco, xtal), Khz(xtal));
    -65536 * 15000 < 65536 * (vco - 2 * xtal * Nint(vco, xtal)) - 1000 * (2 * Khz(xtal) * sdm) < 65536 * 18000
  }

  /** Scaling the kHz bound of SdmError to Hz, with the remainder in Hz between 1000·fra
      and 1000·fra + 999. */
  lemma ScaleToHz(rem: int, fra: int, scaled: int)
    requires 1000 * fra <= rem < 1000 * fra + 1000
    requires -65536 * 15 < 65536 * fra - scaled <= 65536 * 17
    ensures -65536 * 15000 < 65536 * rem - 1000 * scaled < 65536 * 18000
  {
  }

  /** With a reference below 32768 kHz, the integer divider and the modulator word
      together give the VCO frequency back: the word stands for the fractional part to
      within -18..15 kHz. */
  lemma PllWordRoundTrip(vco: nat, xtal: nat)
    requires 0 < xtal && Khz(xtal) < SdmStepLimit
    ensures WordClose(vco, xtal)
  {
    var fra, ref := VcoFra(vco, xtal), Khz(xtal);
    var rem := vco - 2 * xtal * Nint(vco, xtal);
    assert 1000 * fra <= rem < 1000 * fra + 1000;
    assert 0 <= fra <= 2 * ref by {
      assert 1000 * fra < 2 * xtal < 2000 * ref + 1000;
    }
    SdmError(fra, ref);
    ScaleToHz(rem, fra, 2 * ref * Sdm(fra, ref));
  }

  /** The attempt ends locked exactly when the narrowing write to 0x1a is part of it. */
  lemma PllLockedIff(freq: nat, xtal: nat, status4: bv8, poll0: bv8, poll1: bv8)
    requires 0 < xtal
    ensures var p := PllProgram(freq, xtal, status4, poll0, poll1);
      p.status == Locked <==> Masked(0x1a, 0x08, 0x08) in Ops(p.ops)
  {
    var setup := PllSetup(Nil);
    assert Ops(setup) == [Masked(0x10, 0x00, 0x10), Masked(0x1a, 0x00, 0x0c), Masked(0x12, 0x06, 0xff)];
    assert Masked(0x1a, 0x08, 0x08) !in Ops(setup.Then(StatusRead));
    match MixDiv(Khz(freq))
    case None =>
    case Some(mixDiv) =>
      match AdjustDivNum(Log2(mixDiv) - 1, FineTune(status4))
      case None =>
      case Some(divNum) =>
        var head := setup.Then(StatusRead).Then(DivOp(divNum));
        assert Ops(head) == Ops(setup.Then(StatusRead)) + [DivOp(divNum)];
        PllTailLocked(head, Vco(freq, mixDiv), xtal, poll0, poll1);
  }

  /** From a prefix without the narrowing write, the rest of the attempt ends locked
      exactly when it adds that write. */
  lemma PllTailLocked(p: Prog, vco: nat, xtal: nat, poll0: bv8, poll1: bv8)
    requires 0 < xtal && Masked(0x1a, 0x08, 0x08) !in Ops(p)
    ensures var t := PllTail(p, vco, xtal, poll0, poll1);
      t.status == Locked <==> Masked(0x1a, 0x08, 0x08) in Ops(t.ops)
  {
    var nint := Nint(vco, xtal);
    if NintMin <= nint <= NintMax {
      var fra := VcoFra(vco, xtal);
      var sdm := Sdm(fra, Khz(xtal));
      FracOpsList(p, nint, fra, sdm);
      LockPollAfter(FracOps(p, nint, fra, sdm), poll0, poll1);
    }
  }

  /** The fractional-divider writes are four, none of them to register 0x1a. */
  lemma FracOpsList(p: Prog, nint: int, fra: nat, sdm: nat)
    requires NintMin <= nint <= NintMax && sdm < 65536
    ensures Ops(FracOps(p, nint, fra, sdm)) == Ops(p) +
      [Bulk(0x14, [NiSiByte(nint) as bv8]), Masked(0x12, PwSdm(fra), 0x08),
       Bulk(0x16, [(sdm / 256) as bv8]), Bulk(0x15, [(sdm % 256) as bv8])]
  {
    var a, b := Bulk(0x14, [NiSiByte(nint) as bv8]), Masked(0x12, PwSdm(fra), 0x08);
    var c, d := Bulk(0x16, [(sdm / 256) as bv8]), Bulk(0x15, [(sdm % 256) as bv8]);
    OpsThen(p, a);
    OpsThen(p.Then(a), b);
    OpsThen(p.Then(a).Then(b), c);
    OpsThen(p.Then(a).Then(b).Then(c), d);
    assert Ops(p) + [a] + [b] + [c] + [d] == Ops(p) + [a, b, c, d];
  }

  /** The lock poll adds the narrowing write exactly when it ends locked. */
  lemma LockPollAfter(p: Prog, poll0: bv8, poll1: bv8)
    ensures Masked(0x1a, 0x08, 0x08) in Ops(LockOps(p, poll0, poll1)) <==>
      Masked(0x1a, 0x08, 0x08) in Ops(p) || LockIn(poll0, poll1)
  {
    var polled := LockReads(p, poll0);
    if LockBit(poll0) {
      assert Ops(polled) == Ops(p) + [Read(0x00, 3)];
    } else {
      var p1 := p.Then(Read(0x00, 3)).Then(Masked(0x12, 0x06, 0xff));
      assert Ops(p1) == Ops(p) + [Read(0x00, 3), Masked(0x12, 0x06, 0xff)];
      assert Ops(polled) == Ops(p) + [Read(0x00, 3), Masked(0x12, 0x06, 0xff), Read(0x00, 3)];
    }
  }

  // ---------------------------------------------------------------- defects of the source

  /** The fine-tune correction of r820t.rs:487-491 as written, on the 8-bit code: a
      decrement of code 0 wraps to 255 (in a build without overflow checks). */
  function DivNumAsWritten(divNum: nat, tune: bv8): (r: nat)
    requires divNum < 256
    ensures r < 256
  {
    if tune > VcoPowerRef then (divNum + 255) % 256
    else if tune < VcoPowerRef then (divNum + 1) % 256
    else divNum
  }

  /** The byte r820t.rs:492 writes for a code: `div_num << 5` kept to 8 bits. */
  function DivByteAsWritten(divNum: nat): bv8
    requires divNum < 256
  {
    ((divNum * 32) % 256) as bv8
  }

  /** A 1 GHz target takes the divider 2 (code 0); if status byte 4 arrives as 0x0c the
      fine-tune reading is 3, the written code wraps to 255 and the select field gets
      0b111, a code the search never produces. The corrected rule stops with
      `DivNumUnderflow`. */
  lemma DivNumAsWrittenWraps()
    ensures MixDiv(Khz(1000000000)) == Some(2) && FineTune(0x0c) == 3
    ensures DivNumAsWritten(0, FineTune(0x0c)) == 255 && DivByteAsWritten(255) == 0xe0
    ensures AdjustDivNum(0, FineTune(0x0c)) == None
  {
    assert InVcoRange(1000000, 2);
  }

  /** The byte r820t.rs:501-503 sends for an integer divider, as written: the range
      check of r820t.rs:497-500 only prints, so any divider from 13 to 255 is encoded. */
  function NiSiByteAsWritten(nint: nat): nat
    requires NintMin <= nint < 256
  {
    (nint - NintMin) / 4 + (nint - 4 * ((nint - NintMin) / 4) - NintMin) * 64
  }

  /** A divider of 64, one above the largest the hardware accepts, passes the written
      check and is sent as 0xcc, which decodes back to 64. */
  lemma NintAsWrittenSent()
    ensures NiSiByteAsWritten(64) == 0xcc
    ensures 4 * (0xcc % 64) + 0xcc / 64 + NintMin == 64 > NintMax
  {
  }

  /** One round of the modulator loop of r820t.rs:515-524 as written: `n_sdm << 1`
      discards its result, so the counter stays 2. The state is (remainder, word). */
  function SdmRoundAsWritten(fra: int, sdm: nat, refKhz: nat): (r: (int, nat))
  {
    var n := 2;
    if fra > 2 * refKhz / n then (fra - 2 * refKhz / n, sdm + 32768 / (n / 2)) else (fra, sdm)
  }

  /** Once the remainder is above 1 and no more than the reference, a written round
      changes nothing, and since the loop only ends on a remainder of at most 1 it
      never ends: a 28800 kHz reference and a remainder of 2 kHz, say. The counter
      never reaches 0x8000, so the other exit is never taken either. */
  lemma SdmAsWrittenStalls(fra: int, sdm: nat, refKhz: nat)
    requires 1 < fra <= refKhz
    ensures SdmRoundAsWritten(fra, sdm, refKhz) == (fra, sdm)
  {
  }

  /** The divider and divider-select code the search of r820t.rs:465-480 leaves behind,
      as written: the found divider and its code, or, with none found, `mixDiv` doubled
      past 64 to 128 and `divNum` still 0. */
  function MixDivSearch(freqKhz: nat): (r: (nat, nat))
    ensures MixDiv(freqKhz).Some? ==> r.0 == MixDiv(freqKhz).value && r.1 == Log2(r.0) - 1
  {
    match MixDiv(freqKhz)
    case Some(d) => (d, Log2(d) - 1)
    case None => (128, 0)
  }

  /** With no divider found, r820t.rs:494 goes on with divider 128 and code 0, although
      the code for 128 is 6. That happens below 27657 kHz or from 1770000 kHz up. From
      1770000 kHz up the VCO is then far outside its window; from 13829 to 27656 kHz it
      is inside, so the integer and fractional dividers are computed for a divide-by-128
      VCO while the select field says divide by 2. */
  lemma MixDivFallthroughAsWritten(freqKhz: nat)
    requires MixDiv(freqKhz).None?
    ensures MixDivSearch(freqKhz) == (128, 0) && Log2(128) - 1 == 6
    ensures freqKhz < 27657 || VcoMin <= freqKhz
    ensures VcoMin <= freqKhz ==> !InVcoRange(freqKhz, 128)
    ensures InVcoRange(freqKhz, 128) <==> 13829 <= freqKhz < 27657
  {
    MixDivCoverage(freqKhz);
  }

  /** A 24 MHz channel with a 3.57 MHz IF tunes the local oscillator to 27570 kHz: no
      divider is found, and the divide-by-128 VCO is inside its window. */
  lemma MixDivFallthroughExample()
    ensures MixDiv(27570).None? && MixDivSearch(27570) == (128, 0) && InVcoRange(27570, 128)
  {
    MixDivCoverage(27570);
  }
}
