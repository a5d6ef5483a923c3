# R820T tuner control, modelled in Dafny

A model of the Rafael Micro R820T tuner driver of `rtl-sdr-rs`
(`src/tuners/r820t.rs`), with proofs about it. The driver turns a tuning
frequency or an IF bandwidth into tuner register bytes. It keeps a 30-byte
mirror of the registers 0x05 to 0x22 and computes every partial write from that
mirror instead of reading the register back; its only reads fetch the status
bytes, starting at register 0x00. Every write is stored in the mirror, then sent over I2C as messages made
of an address byte and the data.

The project has these modules:

- `Bits` (`bits.dfy`): `bit_reverse`, the nibble-table byte reversal applied to every byte read back.
- `Transport` (`transport.dfy`): the device handle. Its I2C, demodulator and IF calls are foreign code. They are modelled as a ghost log of requests, in order. The bytes a read returns are parameters of the operation (an oracle).
- `Shadow` (`shadow.dfy`): the mirror and masked writes, and the I2C messages of a bulk write. It also defines register programs: a list of operations (`Masked`, `Bulk`, `Read`), with `RunShadow` (the mirror afterwards) and `RunTrace` (the requests issued). Every tuner operation is specified as such a program.
- `Mux` (`mux.dfy`): the `FREQ_RANGES` band table, band selection, the crystal-cap byte, and the six writes of `set_mux`.
- `Pll` (`pll.dfy`): the arithmetic of `set_pll`:
  - the mixer-divider search;
  - the divider-select code and its fine-tune correction;
  - `nint` and its `ni`/`si` split;
  - the fractional remainder and the sigma-delta word;
  - the lock poll;
  - the whole attempt as a program with its outcome (`PllProgram`).
- `Bandwidth` (`bandwidth.dfy`): the IF bandwidth selection of `set_bandwidth`.
- `Tuner` (`tuner.dfy`): the `R820T` class. Its fields are:
  - `regs`, an array of 30 bytes, updated in place;
  - `intFreq` and `hasLock`, updated by the operations;
  - `xtal`, `xtalCapSel` and `freq`, which the source never updates.

  Each method is proved against the program specification.

Several places in the code do not behave as intended: they panic, never
terminate or report no error. The model follows the evident intent there. Each
case is listed under "## Findings", with a member that exhibits the code as
written. Where the model departs from the code:

- The mirror covers registers [5, 35) at index `reg - 5`, for stores and for reads alike.
- A bulk write is sent in chunks of at most 7 data bytes, until nothing is left.
- The modulator counter doubles each round.
- A PLL fault returns `OutOfRange(fault)` where it is detected. The registers keep what was written up to that point, and `hasLock` keeps its value.
- Manual gain returns `NotImplemented`.
- The crystal frequency `xtal` is a constructor parameter and must be positive. The source leaves it at 0 (r820t.rs:264), so r820t.rs:495 would divide by zero.

## Model

| member | source | states |
|---|---|---|
| Bits.LutBits | src/tuners/r820t.rs:608-609 | entry n of the nibble table is n with its four bits in reverse order |
| Bits.BitReverse | src/tuners/r820t.rs:607-611 | for every byte, bit i of `bit_reverse` is bit 7-i of the input |
| Bits.BitReverseInvolution | src/tuners/r820t.rs:607-611 | reversing a byte twice gives it back, for each of the 256 values |
| Bits.BitReverseInvolutive | src/tuners/r820t.rs:607-611 | the same for all bytes at once, so the wire bytes can be recovered from a read buffer |
| Shadow.MaskedByte | src/tuners/r820t.rs:550-556 | the bits of the written byte under the mask are those of `val`; the others are those of the cached byte |
| Shadow.Store | src/tuners/r820t.rs:598-603 | after `shadow_store`, the mirror holds the data at offsets reg-5 .. reg-5+len, and every other entry is unchanged |
| Shadow.MaskedStore | src/tuners/r820t.rs:550-563 | a masked write sets its register's entry to the masked merge of the old entry; no other entry changes |
| Shadow.MaskedStoreIdempotent | src/tuners/r820t.rs:550-556 | applying the same (val, mask) twice leaves the mirror as applying it once |
| Shadow.ChunkSize | src/tuners/r820t.rs:576 | a chunk never exceeds MAX_I2C_MSG_LEN - 1 data bytes or what remains, and is non-empty while data remains |
| Shadow.Messages | src/tuners/r820t.rs:574-584 | every message of a bulk write is an I2C write to the tuner of 2 to 8 bytes: an address byte and 1 to 7 data bytes |
| Shadow.MessagesFirst | src/tuners/r820t.rs:574-584 | sending the first chunk and then the messages for the rest extends the log exactly as the messages for the whole data |
| Shadow.MessagesAdvance | src/tuners/r820t.rs:574-584 | from any offset i of the data, the chunk sent there followed by the messages for the rest is the messages for data[i..]: the loop invariant of `write_regs` |
| Shadow.PayloadFirst | src/tuners/r820t.rs:574-584 | the first message carries exactly the first chunk of the data |
| Shadow.MessagesPayload | src/tuners/r820t.rs:566-585 | the data of the transmitted messages, concatenated in order, is exactly the data written |
| Shadow.MessagesCount | src/tuners/r820t.rs:566-585 | a write of len bytes sends ceil(len / 7) messages |
| Shadow.MessageAt | src/tuners/r820t.rs:574-584 | message k goes to address 0x34 and has 2 to 8 bytes; its address byte is reg plus the number of data bytes sent before it |
| Shadow.MessagesShape | src/tuners/r820t.rs:574-584 | every message of a bulk write has the shape `MessageAt` states |
| Shadow.RunAppend | src/tuners/r820t.rs:296-302 | running one program after another is running their concatenation: the second starts from the mirror the first leaves, and its requests follow (used for `set_mux` then `set_pll`) |
| Shadow.ShadowStoreGuardRejectsWindow | src/tuners/r820t.rs:598-600 | no single-register write inside the mirrored window passes the guard as written |
| Shadow.ChunkSizeAsWrittenOverflows | src/tuners/r820t.rs:576 | with 8 bytes left, the written chunk rule builds a 9-byte message; the corrected rule builds an 8-byte one |
| Shadow.WriteLoopAsWrittenNoProgress | src/tuners/r820t.rs:574-584 | once nothing is left, the written rule picks an empty chunk, so the exit-less loop makes no progress; the corrected messages for no data are none |
| Mux.FreqRangesAscending | src/tuners/r820t.rs:32-222 | the table has 21 entries, starts at 0 MHz, and its start frequencies strictly ascend |
| Mux.RangeIndexFrom | src/tuners/r820t.rs:404-415 | the chosen entry starts at or below the frequency (or is entry 0), and every later entry up to the start of the search starts above it |
| Mux.RangeIndex | src/tuners/r820t.rs:402-415 | the band is the entry with the largest start frequency at or below the frequency in MHz |
| Mux.SelectRange | src/tuners/r820t.rs:404-415 | the scan returns the last entry that starts at or below the frequency, and all later entries start above it |
| Mux.CapByte | src/tuners/r820t.rs:427-440 | the cap byte is the field the crystal setting selects, with the 0x08 drive bit set for every setting except high-capacitance 0 pF |
| Mux.MuxOps | src/tuners/r820t.rs:417-443 | `set_mux` issues six writes, each inside the mirrored window, and no read |
| Mux.MuxRun | src/tuners/r820t.rs:417-443 | running the mux program performs the six stores, in source order |
| Mux.MuxShadowFields | src/tuners/r820t.rs:417-443 | after the six stores, each of 0x17, 0x1a, 0x10, 0x08 and 0x09 holds its field merged under its mask, and 0x1b holds the tracking-filter byte |
| Mux.MuxShadowFrame | src/tuners/r820t.rs:417-443 | the mux writes leave every register outside those six unchanged |
| Mux.MuxRegisters | src/tuners/r820t.rs:417-443 | the mirror after the mux program: each field merged under its mask, no write overwriting another, all other registers unchanged |
| Pll.Khz | src/tuners/r820t.rs:448 | rounds Hz to the nearest kHz, halves rounding up |
| Pll.MixDiv | src/tuners/r820t.rs:470-480 | a divider found puts the VCO in its window; with none found, no candidate does |
| Pll.MixDivFrom | src/tuners/r820t.rs:470-480 | the search from d returns a candidate that puts the VCO in its window, and no smaller candidate from d does; with no result, no candidate from d does |
| Pll.VcoRangeUnique | src/tuners/r820t.rs:465-480 | at most one candidate divider puts the VCO in its window, because the window spans one octave |
| Pll.MixDivIff | src/tuners/r820t.rs:470-480 | the search accepts d exactly when d is a candidate that puts the VCO in its window |
| Pll.MixDivCoverage | src/tuners/r820t.rs:465-480 | a divider exists exactly for targets from 27657 kHz up to, not including, 1770000 kHz |
| Pll.FindMixDiv | src/tuners/r820t.rs:465-480 | the loops find the divider `MixDiv` picks, with code log2(mixDiv) - 1; with none found they end with mix_div 128 and code 0 (`MixDivSearch`) |
| Pll.MixDivSearch | src/tuners/r820t.rs:465-480 | what the search leaves for the rest of `set_pll`: a found divider with its code log2(mixDiv) - 1 |
| Pll.FineTune | src/tuners/r820t.rs:486 | the fine-tune reading taken from the bit-reversed status byte is at most 3 |
| Pll.AdjustDivNum | src/tuners/r820t.rs:487-491 | the code moves by -1, 0 or +1 as the reading is above, equal to or below the power reference; it fails exactly when code 0 would be decremented |
| Pll.Nint | src/tuners/r820t.rs:495 | 2·xtal·nint is at most the VCO frequency, and 2·xtal·(nint+1) is above it |
| Pll.NiSiSplit | src/tuners/r820t.rs:501-502 | for 13 ≤ nint ≤ 63, si is in 0..3, ni in 0..12, and nint = 4·ni + si + 13 |
| Pll.NiSiByte | src/tuners/r820t.rs:501-503 | the byte for register 0x14 fits 8 bits, with ni in the low six bits and si in the top two |
| Pll.VcoFra | src/tuners/r820t.rs:496 | the remainder left by the integer divider is below 2·xtal, and 1000·fra does not exceed it |
| Pll.PwSdm | src/tuners/r820t.rs:505-510 | the pw_sdm bit 0x08 is set exactly when the fractional part is 0 |
| Pll.SdmFromFits | src/tuners/r820t.rs:512-526 | from any counter value, the weights still to come keep the modulator word at most 65534 |
| Pll.SdmFrom | src/tuners/r820t.rs:512-524 | the loop from a given state never lowers the word or the counter |
| Pll.Sdm | src/tuners/r820t.rs:512-526 | the modulator word fits 16 bits (at most 65534), so the two bytes of 0x16 and 0x15 carry it whole |
| Pll.SdmFromError | src/tuners/r820t.rs:512-524 | from counter n = 2^r on, the word w the rest of the loop adds has 65536·fra - 2·ref·w in (-65536·(16 - r), 65536·17]: it overshoots by less than 1 kHz per round still to come and falls short by at most 17 kHz |
| Pll.SdmError | src/tuners/r820t.rs:512-524 | with a reference below 32768 kHz and 0 ≤ fra ≤ 2·ref, 2·ref·sdm/65536 is within 15 kHz above and 17 kHz below fra |
| Pll.PllWordRoundTrip | src/tuners/r820t.rs:495-526 | with a reference below 32768 kHz, 2·xtal·nint plus the part the word stands for, 2·ref·1000·sdm/65536, is the VCO frequency to within 15 kHz over and 18 kHz under |
| Pll.SdmFromSteps | src/tuners/r820t.rs:512-524 | with a reference below 32768 kHz, the loop ends by the time the counter reaches 0x8000 |
| Pll.SdmWord | src/tuners/r820t.rs:512-524 | the loop computes the modulator word of the specification, which is at most 65534, and its counter stops by 0x8000 |
| Pll.FracOps | src/tuners/r820t.rs:501-526 | four operations follow the prefix, which is kept; the last two go to 0x16 and 0x15, and 256·high + low is the modulator word |
| Pll.WordBytes | src/tuners/r820t.rs:525-526 | the high byte `sdm >> 8` and the low byte `sdm & 0xff` of a 16-bit word put it back together |
| Pll.FracOpsList | src/tuners/r820t.rs:501-526 | the fractional writes are the divider byte, pw_sdm, then the high modulator byte to 0x16 before the low byte to 0x15 |
| Pll.LockOps | src/tuners/r820t.rs:527-546 | the lock poll keeps the prefix and starts with a read of three status bytes from 0x00 |
| Pll.LockPoll | src/tuners/r820t.rs:527-546 | at most two status reads, a second only after a read without lock; the VCO current rewrite happens exactly after a failed first read; the 8 kHz narrowing happens exactly when the poll locks, as the last write |
| Pll.LockPollAfter | src/tuners/r820t.rs:527-546 | the lock poll adds the narrowing write exactly when it ends locked |
| Pll.PllProgram | src/tuners/r820t.rs:446-547 | the attempt fails for want of a divider exactly when the search finds none, and then only the setup writes were issued |
| Pll.PllDivided | src/tuners/r820t.rs:482-546 | the attempt stops after the status read exactly when the corrected code would go below zero; it never reports a missing divider |
| Pll.PllTail | src/tuners/r820t.rs:493-546 | nint out of 13..63 stops the attempt with nothing more written, with the fault naming the side; otherwise it ends locked exactly when the poll does |
| Pll.PllFaults | src/tuners/r820t.rs:446-492 | the attempt fails for want of a divider exactly outside 27657..1769999 kHz, and with a code underflow exactly when the divider is 2 and the reading is above the reference |
| Pll.PllProgrammed | src/tuners/r820t.rs:493-526 | an attempt that got as far as the lock poll had 13 ≤ nint ≤ 63; 2·xtal·nint + 1000·fra is within 1 kHz below the VCO frequency; and with a reference below 32768 kHz the written word gives the VCO frequency back (`WordClose`) |
| Pll.PllTailLocked | src/tuners/r820t.rs:493-546 | from a prefix without the narrowing write, the rest of the attempt ends locked exactly when it adds that write |
| Pll.PllLockedIff | src/tuners/r820t.rs:527-546 | the attempt ends locked exactly when its program contains the 8 kHz narrowing write |
| Pll.DivNumAsWrittenWraps | src/tuners/r820t.rs:487-492 | at 1 GHz with status byte 0x0c, the written code wraps to 255 and the select field gets 0xe0; the corrected rule reports the underflow |
| Pll.NintAsWrittenSent | src/tuners/r820t.rs:497-503 | a divider of 64, above the maximum, passes the written check and is sent as 0xcc |
| Pll.SdmAsWrittenStalls | src/tuners/r820t.rs:514-524 | with the counter stuck at 2, a round with 1 < fra ≤ reference changes nothing, so the loop never ends |
| Pll.MixDivFallthroughAsWritten | src/tuners/r820t.rs:465-494 | with no divider found, the search leaves divider 128 with code 0, not 6; from 1770000 kHz up the VCO is then outside its window, and from 13829 to 27656 kHz it is inside it, with the select field saying divide by 2 |
| Pll.MixDivFallthroughExample | src/tuners/r820t.rs:465-494 | 27570 kHz (24 MHz plus a 3.57 MHz IF) finds no divider, and divide-by-128 puts its VCO in the window |
| Bandwidth.LowPassDescending | src/tuners/r820t.rs:308-319 | the ten low-pass table entries strictly descend |
| Bandwidth.LpIndexFrom | src/tuners/r820t.rs:356-363 | the scan from entry i settles on an entry from which every later entry up to it covers the budget, and the next one does not |
| Bandwidth.LpIndex | src/tuners/r820t.rs:355-363 | the chosen filter covers the budget, and every narrower entry is below it |
| Bandwidth.LowPassIndex | src/tuners/r820t.rs:355-363 | the scan as run returns the narrowest table entry that still covers the budget |
| Bandwidth.FilterNibble | src/tuners/r820t.rs:364 | the low nibble 15 - index fits four bits and gives the filter index back |
| Bandwidth.AsI32 | src/tuners/r820t.rs:305 | `as i32` keeps values below 2^31 and maps the rest to the congruent negative value |
| Bandwidth.BwPlan | src/tuners/r820t.rs:321-369 | bit 0x10 of reg_0a is set exactly for bandwidths above 2430000 Hz, and the IF is 4570000 Hz exactly above 6000000 Hz |
| Bandwidth.BandwidthSetting | src/tuners/r820t.rs:321-369 | the selection as run (bands, corners one by one, filter scan) produces the specification's IF and register bytes |
| Bandwidth.BwWideBands | src/tuners/r820t.rs:322-333 | above 2430000 Hz: reg_0a 0x10 and reg_0b 0x0b, 0x2a or 0x6b, with IF 4570000 or 3570000 Hz |
| Bandwidth.BwLowPass | src/tuners/r820t.rs:334-368 | low-pass path: reg_0a 0; each corner is taken exactly when the budget allows it (the 380 kHz one above 2050000 Hz, the 350 kHz one above 2080000 Hz when the first is taken and above 1700000 Hz otherwise), and its bit is clear exactly then; the filter is the narrowest covering the budget, with 15-index in the low nibble; IF = 2300000 + corners - real_bw/2, at least 1450000 |
| Bandwidth.BwIntFreqRange | src/tuners/r820t.rs:321-369 | every bandwidth gives an IF from 1450000 to 4570000 Hz, so `int_freq` never underflows |
| Bandwidth.BwWrapped | src/tuners/r820t.rs:305-368 | an argument of 2^31 or more wraps negative: no corner, the 350 kHz filter, IF 2125000 Hz, reg_0b 0xe6 |
| Bandwidth.BwExample | src/tuners/r820t.rs:334-368 | 2048000 Hz gives IF 1625000 Hz and reg_0b 0xaf |
| Tuner.Reversed | src/tuners/r820t.rs:587-595 | every byte of the buffer after a read, bit-reversed, is the wire byte (or, past len, the byte that was there) |
| Tuner.R820T.constructor | src/tuners/r820t.rs:257-269 | zeroed mirror, IF offset 0, no lock, 30 pF crystal setting; `init`'s requests are logged |
| Tuner.R820T.Init | src/tuners/r820t.rs:273-286 | the four demodulator requests, in order |
| Tuner.R820T.ReadCacheReg | src/tuners/r820t.rs:559-563 | returns the mirrored byte at reg - 5 |
| Tuner.R820T.ShadowStore | src/tuners/r820t.rs:598-603 | the mirror becomes `Store` of the old mirror |
| Tuner.R820T.WriteRegs | src/tuners/r820t.rs:566-585 | the mirror is stored before sending and holds the data throughout; the log grows by the chunked messages |
| Tuner.R820T.WriteRegMask | src/tuners/r820t.rs:550-556 | the mirror becomes `MaskedStore` of the old one, and the merged byte is sent as one message |
| Tuner.R820T.ReadReg | src/tuners/r820t.rs:587-595 | logs the address write and the read; the whole buffer, past len too, ends bit-reversed |
| Tuner.R820T.SetMux | src/tuners/r820t.rs:400-444 | the mirror and log are those of the mux program for the band of `freq` |
| Tuner.R820T.PollLock | src/tuners/r820t.rs:527-546 | `has_lock` is the lock bit of the last status read; the mirror and log follow the lock-poll program |
| Tuner.R820T.WriteFraction | src/tuners/r820t.rs:501-526 | the mirror and log follow the four fractional writes, high modulator byte first |
| Tuner.R820T.PllFraction | src/tuners/r820t.rs:493-546 | from the integer divider on, the status, mirror and log match `PllTail`; the lock flag changes only when the poll runs |
| Tuner.R820T.ReadFineTune | src/tuners/r820t.rs:482-486 | the status read is logged and the reading is `FineTune` of the fifth byte as it arrives |
| Tuner.R820T.PllDivider | src/tuners/r820t.rs:482-546 | from the status read on, the status, mirror and log match `PllDivided` |
| Tuner.R820T.SetupSteps | src/tuners/r820t.rs:452-460 | the mirror and log follow the three setup writes |
| Tuner.R820T.SetPll | src/tuners/r820t.rs:446-547 | the status, mirror and log match `PllProgram`; `has_lock` changes only on Locked or LockFailure |
| Tuner.R820T.SetFreq | src/tuners/r820t.rs:296-302 | LO = freq + int_freq; the mirror and log are the mux program for the LO, then the PLL program from the mirror it leaves, which is running the two programs appended |
| Tuner.R820T.SetBandwidth | src/tuners/r820t.rs:304-373 | `int_freq` becomes the specification's IF for the i32-cast bandwidth; the two masked writes follow; the lock flag is untouched |
| Tuner.R820T.SetGain | src/tuners/r820t.rs:382-396 | Auto: the LNA, mixer and VGA writes; Manual: `NotImplemented`, nothing written |
| Tuner.R820T.GetIfFreq | src/tuners/r820t.rs:375-377 | returns the IF offset, which lies in 0..4570000 |

## Left out

- Device transport (`i2c_write`, `i2c_read`, `demod_write_reg`, `set_if_freq`): foreign code. These calls are modelled as a ghost log of requests. The bytes a read returns are parameters (`raw5`, `raw0`, `raw1`).
- The `println!` diagnostics (r820t.rs:498, 539), `TUNER_INFO`, `get_info`, `set_gain_mode`, the commented-out gain table and the R828D branches: no logic to model.
- `REG_INIT` (r820t.rs:12-20) is never used by the code; the mirror starts at zeros, as `new` makes it.
- Tuner.R820T.SetFreq: requires freq + int_freq < 2^32. The source's `u32` addition (r820t.rs:297) would panic (or wrap) beyond that.
- Tuner.R820T.SetPll: the kHz rounding `(freq + 500) / 1000` (r820t.rs:448) is taken on unbounded integers. In the source's `u32` it overflows for an LO frequency of 2^32 - 500 Hz or more; that overflow is not modelled.
- Tuner.R820T.constructor: `xtal` is an unbounded positive integer. The `u32` addition `self.xtal + 500` (r820t.rs:450) overflows for a crystal of 2^32 - 500 Hz or more; that overflow is not modelled.
- Tuner.R820T.SetFreq: returns the PLL status, which `set_freq` discards.
- Tuner.R820T.SetBandwidth: the sample-rate argument is accepted and ignored, as in the source.
- Bandwidth.BandwidthSetting: computes on locals and assigns `intFreq` once at the end, where the source updates `int_freq` as it goes. Nothing reads `int_freq` in between, so the result is the same.
- Tuner.R820T.ReadReg: the `buf.len() >= len` assertion becomes a precondition.
- The panics of `read_cache_reg` on an index outside the mirror become preconditions (`InWindow`). The panic of `write_regs` indexing a vector built with `with_capacity` (r820t.rs:577-578) is not modelled: each message is built directly.
- The `nint as u8` truncation (r820t.rs:495) is not modelled: a divider above 63 stops the attempt before any truncated value is used.
- The `nint - 13` underflow (r820t.rs:501) is not modelled as a wrap: a divider below 13 stops the attempt with `NintTooSmall`.
- Concurrency: none in the core.

## Findings

| source | as written | input that shows it | evidently intended | confidence | as-written member | corrected member |
|---|---|---|---|---|---|---|
| src/tuners/r820t.rs:598-603 | `shadow_store` asserts `reg < REG_SHADOW_START` and copies to `regs[reg..]`, while `read_cache_reg` reads `regs[reg - 5]` | any masked write, e.g. register 0x17 from `set_mux`: the guard fails | accept the window [5, 35) and store at `reg - 5` | high, not executed | Shadow.ShadowStoreGuardRejectsWindow | Shadow.Store |
| src/tuners/r820t.rs:576 | with more than 7 bytes left, a chunk of 8 data bytes is taken, giving a 9-byte message | a bulk write of 8 bytes | at most MAX_I2C_MSG_LEN - 1 = 7 data bytes per message | high, not executed | Shadow.ChunkSizeAsWrittenOverflows | Shadow.MessageAt |
| src/tuners/r820t.rs:574-584 | `loop` with no exit: once `len` is 0 it keeps sending address-only messages | any write | stop when `len` reaches 0 | high, not executed | Shadow.WriteLoopAsWrittenNoProgress | Shadow.MessagesCount |
| src/tuners/r820t.rs:514, 523 | `n_sdm << 1;` discards its result, so the counter stays 2 | a remainder of 2 kHz with a 28800 kHz reference: no round changes anything | the counter doubles each round, exiting by 0x8000 | high, not executed | Pll.SdmAsWrittenStalls | Pll.SdmFromSteps |
| src/tuners/r820t.rs:470-494 | when no divider fits, the search falls through with `mix_div` 128 and code 0, and programming goes on | 2 GHz (2000000 kHz); 24 MHz with a 3.57 MHz IF (27570 kHz), where divide-by-128 is in the window but the select field says divide by 2 | report the target as out of range | medium, not executed | Pll.MixDivFallthroughAsWritten | Pll.PllProgram |
| src/tuners/r820t.rs:487-492 | `div_num - 1` on code 0 underflows (a panic, or 255 and select bits 0b111 when wrapping) | 1 GHz with status byte 4 arriving as 0x0c (fine-tune reading 3) | report the adjustment as out of range | medium, not executed | Pll.DivNumAsWrittenWraps | Pll.AdjustDivNum |
| src/tuners/r820t.rs:497-503 | `nint > 63` only prints, and the divider is sent anyway | nint = 64: byte 0xcc is written to 0x14 | stop with an out-of-range error before writing | high, not executed | Pll.NintAsWrittenSent | Pll.PllProgrammed |
