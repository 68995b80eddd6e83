# bladeRF: a verified model of the firmware's hardest state machines and arithmetic

This project models, in Dafny 4.11, the parts of the bladeRF host and firmware sources whose
correctness is hard to see from one function: the LMS6002D tuning chain and VCOCAP search, the LMS DC
calibration, the FX3 compressed FPGA loader, the FX3 link lifecycle and TX DMA pause handshake, the
NIOS worst-case stack analysis, the CRC-16 on flash records, the RFIC stop-and-wait result protocol,
the firmware log and the TX mute cache. `dafny verify dfyconfig.toml` checks everything.

## Main results

* **VCOCAP search** (`VcocapSearch.TuneVcocap`). For any comparator readings and any transfer
  failures the search ends, writes only codes 0..63 with the two bits above them kept, and success
  means that the last reading was NORM at the reported code. When VTUNE has settled around a window
  (h, l) it succeeds if and only if the first walk needs at most 20 steps, and lands on
  h + (l - h) / 2, strictly inside NORM, from any of the three starting regions.
* **Tuning chain** (`PllRegisters.EndToEnd`, `PllRegisters.Retune`). A requested frequency goes
  through band table, integer/fraction split, retune packet and PLL registers and is read back within
  1 Hz, and exactly up to 950 MHz, if and only if it is outside one edge set; the output buffer of its
  band is selected, and the delta-sigma modulators end up off.
* **DC calibration** (`DcCalibration.CalibrateDc`). At most 36, 26 or 1 attempts for every sequence of
  readings; on fault-free transfers the receiver is left as it was found, converged or not, and the
  status is explained by what the calibration block itself was made to do, submodule by submodule.
* **Compressed FPGA load** (`FpgaLoader.Loader.LoadCompressed`). On a fault-free device the load
  succeeds if and only if the flash stream is exactly the frames of an image; what is sent is the
  decoded image, with the last flag raised once, on the final page.
* **Link lifecycle** (`LinkLifecycle.Firmware.Run`). Over every run no DMA channel is created while
  live or destroyed while dead, the sample and configuration paths never coexist, the heap stays
  within 224 KB, and the pause state a host reads is the one the history of the TX channel stands for.
* **Stack analysis** (`StackBudget.DeepestFrom`). The memoised search returns exactly when no function
  can come back on a stack with the same cut contexts below it, and then the maximum over all stacks
  of functions that respect the cuts.
* **CRC-16** (`Crc.CrcIsRemainder`, `Crc.Linear`, `Crc.SelfCheck`, `Crc.DetectsAdjacentBytes`). It is the
  one remainder of the message polynomial times x^16 by x^16 + x^12 + x^5 + 1.
* **RFIC results** (`RficProtocol.Accounting`, `RficProtocol.RetainedResult`,
  `RficProtocol.AckConsumes`, `RficProtocol.RetryIsHarmless`). At most one tagged command is in flight,
  and what a host reads is the outcome of the last command retired.
* **Log** (`LoggerRing.Ring.Replay`, `LoggerRing.DropIsWarned`, `LoggerRing.MarkersMean`).
* **TX mute** (`TxMute.EveryAnswer`). The exact status and attenuation of every call, from what the
  caller saw before.

## Where the code does not do what one would expect

Each of these is stated as an exact condition, with a witness where it is a failure.

* For frequencies above 1.9 GHz with f mod 19200000 = 19199999 the fraction rounds up to 2^23, which
  neither the packet nor the 23-bit register field can hold; the PLL is then programmed 19199999 Hz
  low (`Tuning.TruncatedFraction`, `PllRegisters.EndToEnd`; `Tuning.RoundsUpExample` names
  1919999999 Hz).
* RXVGA2 codes above 10 are not restored by the DC calibration (`DcCalibration.Vga2RoundTrip`), and
  a receive calibration with an LNA gain field of 0 is refused with nothing touched.
* The pause callback is registered on the UART channels only (fx3_firmware/src/rf.c:207-210), not on
  the TX sample channel it checks for (rf.c:385-386). Without a callback for that channel a pause is
  never confirmed (`LinkLifecycle.Firmware.Run`, last clause).
* The comment in rf.c:570-572 speaks of a successful endpoint reset; the code clears the pause state
  before the reset and whatever its outcome. The model follows the code.
* `RF_TX` disable resets the TX endpoint without looking at the link state
  (fx3_firmware/src/bladeRF.c:463-469); it creates and destroys nothing, and is part of the runs.
* After 2^32 results a late acknowledgement can consume a result it was not meant for
  (`RficProtocol.LateAckAfterWrap`).
* A mute that takes effect but is reported as failed, before the first success on the channel, leaves
  the channel muted for good: every later call is refused (`TxMute.EveryAnswer`,
  `TxMute.LossExample`).

## Modelling choices

Bytes and words are integers with explicit ranges, and bit fields are division and remainder by powers
of two. The LMS chip is a class with 128 registers; which transfers fail, whether a failing write
lands, and what the measured registers report are arbitrary functions fixed at construction, so every
theorem holds for all of them. The chip also keeps a record of its DC calibration blocks, driven only by
the register transfers that reach them: which submodule was started from which latched count, how often
it was found unfinished, and the value read. SPI and DMA calls of the loader fail in the same way. `LzmaDecode` is an
arbitrary function. CRC words are lists of 16 bits, lowest first. The link model starts when the device
is ready; its SDK calls succeed, except for those of the pause handshake, and DMA callbacks are
inputs. The RFIC queue is a value with one function per operation; what a command's callback reports,
and whether a command is known and permitted, are inputs.

## Model

| member | source | states |
|---|---|---|
| `VcocapSearch.TuneVcocap` | fpga_common/src/lms.c:2064-2218 | under arbitrary readings and failures only the VCOCAP field is ever written and success means NORM at the reported code; settled, success iff the first walk fits in 20 steps, with the window's midpoint as result |
| `VcocapSearch.HighToNorm` | fpga_common/src/lms.c:1862-1900 | from a HIGH start finds the last HIGH code h iff it is within 20 steps, else reports failure |
| `VcocapSearch.NormToHigh` | fpga_common/src/lms.c:1902-1939 | from a NORM start finds the last HIGH code h iff it is within 20 steps |
| `VcocapSearch.LowToNorm` | fpga_common/src/lms.c:1941-1979 | from a LOW start finds the first LOW code l iff it is within 20 steps |
| `VcocapSearch.WaitForVtune` | fpga_common/src/lms.c:1982-2042 | reaches the first code that shows the far comparator value, or the end of the range; terminates |
| `VcocapSearch.FirstEdge` | fpga_common/src/lms.c:2064-2105 | reads the comparator at the estimate and finds the edge that reading calls for |
| `VcocapSearch.FindLowLimit` | fpga_common/src/lms.c:2106-2142 | from a known high limit the low limit is exact when settled |
| `VcocapSearch.FindHighLimit` | fpga_common/src/lms.c:2143-2178 | from a known low limit the high limit is exact when settled |
| `VcocapSearch.SettleBetween` | fpga_common/src/lms.c:2180-2218 | success means the midpoint code is in the register and reads NORM |
| `VcocapSearch.GetVtune` | fpga_common/src/lms.c:1804-1817 | the comparator field of the last reading |
| `VcocapSearch.WriteVcocap` | fpga_common/src/lms.c:1819-1834 | writes the code under the two saved bits and nothing else |
| `PllRegisters.WritePllReg` | fpga_common/src/lms.c:2326-2335 | with or without the multiwrite alias of address bit 7 the same one register is written |
| `Tuning.CalculateTuningParams` | fpga_common/src/lms.c:2245-2313 | the loop over the band table and the split compute the specified parameters for every 32-bit request, with no table miss |
| `Tuning.BandFound` | fpga_common/src/lms.c:195-216 | every frequency in range is in the table, in a usable band |
| `Tuning.BandRatio` | fpga_common/src/lms.c:158-216 | the chosen band puts the VCO within 3.8..7.6 GHz; its ratio is fixed by the frequency alone, and its SELVCO is the oscillator whose range holds the VCO frequency |
| `Tuning.SplitIsNearest` | fpga_common/src/lms.c:2285-2294 | the split is the nearest one, nfrac is at most 2^23, and equals it exactly for ratio 2 and f mod 19200000 = 19199999 |
| `Tuning.HzError` | fpga_common/src/lms.c:1667-1676 | converting the split back is within 1 Hz, and exact up to 950 MHz |
| `Tuning.TruncatedFraction` | fpga_common/src/lms.c:2372-2391 | keeping 23 bits of the fraction changes nothing off the edge set and loses 19199999 Hz on it |
| `Tuning.RoundsUpExample` | fpga_common/src/lms.c:2285-2294 | a frequency in the edge set |
| `Tuning.EstimateVcocap` | fpga_common/src/lms.c:348-366 | the starting code is within 15..55 and the nearest to the line over the band |
| `Tuning.EstimateByVco` | fpga_common/src/lms.c:2264-2283 | the estimate made for a frequency is the code nearest to the line from 15 to 55 over the range of the chosen oscillator |
| `Tuning.Clamp` | fpga_common/src/lms.c:2255-2262 | an out-of-range request becomes the nearest frequency in range |
| `RetunePacket.Pack` | fpga_common/include/nios_pkt_retune.h:125-182 | fills exactly the 16 bytes of the layout and nothing beyond |
| `RetunePacket.Unpack` | fpga_common/include/nios_pkt_retune.h:185-226 | recovers whatever fitting request was packed into the buffer |
| `RetunePacket.RoundTrip` | fpga_common/include/nios_pkt_retune.h:125-226 | unpacking a packed request gives it back if and only if every field fits |
| `RetunePacket.Layout` | fpga_common/include/nios_pkt_retune.h:125-182 | where every field of a fitting request is: magic, little-endian time, nint and nfrac as one big-endian word, flags above freqsel and vcocap |
| `RetunePacket.FractionTruncates` | fpga_common/include/nios_pkt_retune.h:125-226 | an over-wide fraction loses its high bits and disturbs no other field |
| `PllRegisters.IsLoopbackEnabled` | fpga_common/src/lms.c:322-333 | loopback is on exactly for the register patterns of an active mode |
| `PllRegisters.GetLoopbackMode` | fpga_common/src/lms.c:1521-1581 | the one mode that the two registers select |
| `PllRegisters.WritePllConfig` | fpga_common/src/lms.c:368-402 | writes FREQSEL and SELOUT, keeping SELOUT while a loopback is active, and no other register |
| `PllRegisters.OutputBits` | fpga_common/src/lms.c:384-400 | SELOUT is 1 for the low band and 2 for the high band, or kept while a loopback is active; the DSM enables end up off and register 0x09 is otherwise kept |
| `PllRegisters.SetPrecalculatedFrequency` | fpga_common/src/lms.c:2316-2415 | the register file afterwards, whether or not the search succeeds; only PLL registers and 0x09 change; success and code under a settled VTUNE |
| `PllRegisters.ProgramPll` | fpga_common/src/lms.c:2345-2400 | the same for the part between the DSM enables |
| `PllRegisters.GetFrequency` | fpga_common/src/lms.c:1698-1750 | decodes the PLL registers |
| `PllRegisters.ReadBackProgrammed` | fpga_common/src/lms.c:1698-1750 | readback gives the divider, code and words that were programmed |
| `PllRegisters.PacketSurvives` | hdl/fpga/platforms/common/bladerf/software/bladeRF_nios/src/pkt_retune.c:579-594 | the NIOS programs what the host computed, but for bit 23 of the fraction |
| `PllRegisters.SplitSurvives` | fpga_common/src/lms.c:1705-1732 | packet and registers are the identity on (nint, nfrac) exactly off the edge set |
| `PllRegisters.EndToEnd` | fpga_common/src/lms.c:2245-2415 | readback within 1 Hz iff off the edge set; exact up to 950 MHz; 19199999 Hz low on the set; SELOUT by whether the request is below 1.5 GHz, or kept in loopback |
| `PllRegisters.Retune` | fpga_common/src/lms.c:2245-2415 | the same over the stateful chip, for every 32-bit request, with success iff the first VCOCAP walk fits in 20 steps |
| `DcCalibration.Vga1RoundTrip` | fpga_common/src/lms.c:822-853 | every RXVGA1 gain survives a write and readback through the two tables |
| `DcCalibration.Vga2RoundTrip` | fpga_common/src/lms.c:881-910 | the RXVGA2 register survives a readback and rewrite iff its code is at most 10 |
| `DcCalibration.Backup` | fpga_common/src/lms.c:2529-2565 | saves the borrowed registers and gains; refuses an LNA gain field of 0 |
| `DcCalibration.Init` | fpga_common/src/lms.c:2569-2687 | clock, comparator, LNA and gains are set up for a first attempt at maximum gain; only working and borrowed registers change |
| `DcCalibration.DcCalLoop` | fpga_common/src/lms.c:2440-2525 | one run of a calibration block: addressed, latched, started and read once it has finished, or given up after 25 unfinished polls |
| `DcCalibration.CalSubmodule` | fpga_common/src/lms.c:2698-2823 | the block is run from 31, and again from 0 exactly if 31 came back; converged, stuck and unfinished are told apart by those runs; each RXVGA2 submodule runs in its own gain stage; only the block's registers change |
| `DcCalibration.CalAllSubmodules` | fpga_common/src/lms.c:2984-2999 | converged exactly when every submodule from the first was run in order and accepted; otherwise the pass stopped at the first stuck or unfinished one |
| `DcCalibration.RetryAdjustment` | fpga_common/src/lms.c:2827-2878 | uses up exactly one of the remaining gain steps, with the registers at the new gain, and reports the limit iff none is left |
| `DcCalibration.CalWithRetries` | fpga_common/src/lms.c:3003-3034 | at most 36, 26 or 1 attempts; success is stuck passes and then a converged one, the limit is that many stuck passes, anything else an unfinished run; every attempt runs with the set-up of its gains, RXVGA1 going down to 5 dB before RXVGA2 |
| `DcCalibration.Deinit` | fpga_common/src/lms.c:2882-2941 | comparators are powered down and RXVGA2 is under normal control again |
| `DcCalibration.Restore` | fpga_common/src/lms.c:2945-2980 | from a backup, borrowed registers and gains are back |
| `DcCalibration.CalibrateDc` | fpga_common/src/lms.c:3003-3044 | registers 0x09, 0x72, 0x75 and the RXVGA1 gain as before for every sequence of readings, RXVGA2 iff its code was at most 10; the status is explained by the passes over blocks 0x00, 0x30, 0x50 and 0x60 with 1, 2, 2 and 5 submodules |
| `Widening.WidenInPlace` | fx3_firmware/src/fpga.c:104-112 | word i ends as the table entry of the original byte i: no byte is read after it was overwritten |
| `Widening.FillFlipLut` | fx3_firmware/src/bladeRF1.c:94-115 | the table is the bit scatter of its index |
| `Widening.ScatterInjective` | fx3_firmware/src/bladeRF1.c:104-113 | no two bytes scatter to the same word |
| `Widening.ScatterBits` | fx3_firmware/src/bladeRF1.c:104-113 | each bit of the byte is on its line of the word, and the other lines are 0 |
| `Widening.LookupRecovers` | fx3_firmware/src/bladeRF1.c:94-115 | the original bytes are determined by the words sent |
| `FlashReader.Reader.Read` | fx3_firmware/src/fpga.c:506-539 | bytes come out of the flat stream consecutively; a call fails iff more is asked for than remains, or a transfer failed |
| `FlashReader.Reader.Refill` | fx3_firmware/src/fpga.c:519-529 | a new page continues the stream where the last one ended |
| `FlashReader.StreamIsStored` | fx3_firmware/src/fpga.c:520-529 | whatever the flash holds, its pages are a stream of any length |
| `FpgaLoader.DecodeFrame` | fx3_firmware/src/fpga.c:598-621 | a frame is accepted only as a whole block from all of its input |
| `FpgaLoader.DecodesExactly` | fx3_firmware/src/fpga.c:598-621 | five property bytes and a payload are accepted iff the decoder succeeds on them, uses all of the payload and fills the block, and its output is the block |
| `FpgaLoader.TooShort` | fx3_firmware/src/fpga.c:608-610 | a frame without payload is refused |
| `FpgaLoader.HeaderValue` | fx3_firmware/src/fpga.c:495-501 | the length in front of a frame is little-endian |
| `FpgaLoader.FrameCount` | fx3_firmware/src/fpga.c:671-706 | an image of n bytes has exactly ceil(n / 61440) frames |
| `FpgaLoader.HeadUnique` | fx3_firmware/src/fpga.c:683-694 | a stream starts with at most one frame |
| `FpgaLoader.FramesUnique` | fx3_firmware/src/fpga.c:671-706 | a stream is the encoding of at most one sequence of frames |
| `FpgaLoader.Loader.SendPage` | fx3_firmware/src/fpga.c:351-408 | the packet carries the widened page, the flag, and two more words on the last page |
| `FpgaLoader.Loader.SendBlock` | fx3_firmware/src/fpga.c:544-568 | the pages sent are the block in order, the last flag only where nothing is left |
| `FpgaLoader.Loader.ReadFrame` | fx3_firmware/src/fpga.c:676-694 | fault-free, it succeeds iff the stream starts with a frame of acceptable length; the payload read never under-runs |
| `FpgaLoader.Loader.LoadFrame` | fx3_firmware/src/fpga.c:671-706 | fault-free, one pass succeeds iff the stream starts with a good frame |
| `FpgaLoader.Loader.LoadCompressed` | fx3_firmware/src/fpga.c:626-736 | fault-free, the load succeeds iff the stream is exactly the frames of the image; success means the decoded image was sent in order with one last flag at the end |
| `LinkLifecycle.SamplePathClean` | fx3_firmware/src/rf.c:296-441 | starting the sample path from an empty heap misuses no channel and stays within 224 KB |
| `LinkLifecycle.SampleBufferBytes` | fx3_firmware/src/rf.c:324-381 | the buffer bytes of the sample channels at each speed, and what is left of the 224 KB |
| `LinkLifecycle.TeardownClean` | fx3_firmware/src/rf.c:446-525 | the teardown destroys exactly the channels that were created |
| `LinkLifecycle.Firmware.RfStart` | fx3_firmware/src/rf.c:296-441 | a restart from any state leaves exactly the channels of the current loopback setting and an idle pause |
| `LinkLifecycle.Firmware.RfStop` | fx3_firmware/src/rf.c:446-525 | frees what was created even if loopback changed since; a second stop does nothing |
| `LinkLifecycle.Firmware.ConfigStart` | fx3_firmware/src/fpga.c:124-234 | never stacks a second configuration channel |
| `LinkLifecycle.Firmware.ConfigStop` | fx3_firmware/src/fpga.c:236-291 | frees the configuration channel once |
| `LinkLifecycle.Firmware.StopApplication` | fx3_firmware/src/bladeRF.c:226-245 | from any state nothing is left live and the alternate setting is cleared |
| `LinkLifecycle.Firmware.HandleSetInterface` | fx3_firmware/src/bladeRF.c:835-876 | stop and start keep the invariant from any setting to any other, repeats included |
| `LinkLifecycle.Firmware.DmaCallback` | fx3_firmware/src/rf.c:48-63 | only a pending pause changes, and only for the TX sample channel; suspend wins over error |
| `LinkLifecycle.Firmware.PauseTxDma` | fx3_firmware/src/rf.c:527-550 | when a request is taken up, repeated or refused, and that a failure sticks |
| `LinkLifecycle.Firmware.ResetEndpoint` | fx3_firmware/src/rf.c:564-599 | the TX endpoint alone ends a pause |
| `LinkLifecycle.Firmware.HandlePause` | fx3_firmware/src/bladeRF.c:700-712 | acknowledged exactly on the sample path, not in loopback, with zero request fields, and unless the pause has failed or the suspend call is refused |
| `LinkLifecycle.Firmware.QueryPause` | fx3_firmware/src/bladeRF.c:714-725 | the answer is the one pause state the history stands for: Confirmed iff a suspend came first after a request made since the last start, stop or endpoint reset |
| `LinkLifecycle.PauseUnique` | fx3_firmware/src/rf.c:48-63 | a history stands for at most one pause state |
| `LinkLifecycle.AfterReport` | fx3_firmware/src/rf.c:53-62 | a report decides a pending pause and changes no other |
| `LinkLifecycle.AfterRefusal` | fx3_firmware/src/rf.c:542-549 | a refused suspend call fails the pause whatever was reported meanwhile |
| `LinkLifecycle.Firmware.Step` | fx3_firmware/src/bladeRF.c:828-894 | the whole new state of every event, the channel discipline, and failure kept until a boundary |
| `LinkLifecycle.Firmware.Run` | fx3_firmware/src/bladeRF.c:828-894 | the same over every run; without a callback for the TX channel a pause is never confirmed |
| `StackBudget.DeepestFrom` | host/misc/nios_stack_budget.py:292-322 | returns iff no function can come back on a stack with the same cut contexts below it; the depth is then the largest frame sum of all stacks that respect the cuts and the path reports one that deep; otherwise it names a real call cycle |
| `StackBudget.NodeLaw` | host/misc/nios_stack_budget.py:303-308 | a function may call, and costs, what the cuts whose contexts lie below it on the stack leave of it |
| `StackBudget.StackIsChain` | host/misc/nios_stack_budget.py:309-320 | a stack of functions is a chain of search keys of the same depth and report |
| `StackBudget.ChainIsStack` | host/misc/nios_stack_budget.py:309-316 | every chain of search keys is such a stack: a key carries exactly the contexts below it |
| `StackBudget.RecursIffRepeats` | host/misc/nios_stack_budget.py:301-302 | a key repeats on a chain iff a function comes back with the same contexts below it |
| `StackBudget.Search.Go` | host/misc/nios_stack_budget.py:297-320 | the memoised recursion terminates and keeps a memo of right answers |
| `StackBudget.Search.Explore` | host/misc/nios_stack_budget.py:311-316 | the loop over callees finds the deepest of them |
| `StackBudget.Finished` | host/misc/nios_stack_budget.py:311-320 | the entry built from the callees' answers is the answer of the key |
| `StackBudget.ChainSimple` | host/misc/nios_stack_budget.py:299-302 | with all callees answered no chain from the key repeats a key |
| `StackBudget.DepthUnique` | host/misc/nios_stack_budget.py:313-316 | the depth does not depend on the order of the callees |
| `StackBudget.Reachable` | host/misc/nios_stack_budget.py:220-227 | exactly the functions that some path of calls leads to |
| `Crc.Zcrc` | firmware_common/misc.h:27-43 | the two loops compute the specified CRC |
| `Crc.CrcIsRemainder` | firmware_common/misc.h:27-43 | a word is the CRC iff it is a remainder of the message polynomial times x^16 by x^16 + x^12 + x^5 + 1 |
| `Crc.RemainderUnique` | firmware_common/misc.h:27-43 | such a remainder is unique |
| `Crc.ShiftBits` | firmware_common/misc.h:34-40 | the bit loop is n division steps |
| `Crc.Linear` | firmware_common/misc.h:27-43 | XOR-linear on inputs of equal length |
| `Crc.SelfCheck` | firmware_common/misc.h:27-43 | a message followed by its own CRC, high byte first, gives 0 |
| `Crc.BurstNonzero` | firmware_common/misc.h:27-43 | an error pattern within two adjacent bytes has a nonzero CRC |
| `Crc.DetectsAdjacentBytes` | firmware_common/misc.h:27-43 | two equal-length inputs that differ only within two adjacent bytes have different CRCs |
| `RficProtocol.FromStatus` | fpga_common/include/rfic_progress_policy.h:112-142 | success exactly for a status that is not negative, and never the no-result code |
| `RficProtocol.ErrnoClasses` | fpga_common/include/rfic_progress_policy.h:112-142 | each result class is named by exactly its own error numbers |
| `RficProtocol.LatchedFirst` | fpga_common/include/rfic_progress_policy.h:144-153 | the latch and the cleanup latch keep the first error |
| `RficProtocol.OutcomeFaithful` | fpga_common/include/rfic_progress_policy.h:144-184 | success iff no status was negative, the operation succeeded and cleanup succeeded; the first error is the one reported |
| `RficProtocol.WriteKeeps` | hdl/fpga/platforms/common/bladerf/software/bladeRF_nios/src/devices_rfic.c:1373-1452 | admission keeps the protocol invariant |
| `RficProtocol.RetireKeeps` | hdl/fpga/platforms/common/bladerf/software/bladeRF_nios/src/devices_rfic.c:1270-1283 | retirement keeps it |
| `RficProtocol.AckKeeps` | hdl/fpga/platforms/common/bladerf/software/bladeRF_nios/src/devices_rfic.c:1335-1364 | acknowledgement keeps it |
| `RficProtocol.RunKeeps` | fpga_common/include/rfic_progress_policy.h:65-110 | every run keeps it, untagged writes included |
| `RficProtocol.Accounting` | fpga_common/include/rfic_progress_policy.h:87-110 | at most one tagged command is queued or unacknowledged, accepted = acknowledged + outstanding, and results are acknowledged in order, each once |
| `RficProtocol.RetainedResult` | hdl/fpga/platforms/common/bladerf/software/bladeRF_nios/src/devices_rfic.c:1236-1283 | a retained result is that of the last command retired, with its id, command, outcome and first cleanup error; Success iff nothing went wrong; no result otherwise |
| `RficProtocol.InOrder` | hdl/fpga/platforms/common/bladerf/software/bladeRF_nios/src/devices_rfic_queue.c:34-72 | commands retire in the order in which they entered, each once |
| `RficProtocol.EntersExactly` | hdl/fpga/platforms/common/bladerf/software/bladeRF_nios/src/devices_rfic.c:1373-1452 | which writes enter the queue, and that no other write changes anything |
| `RficProtocol.AnsweredExactly` | hdl/fpga/platforms/common/bladerf/software/bladeRF_nios/src/devices_rfic.c:1373-1452 | which writes are accepted, turned away as full, and rejected |
| `RficProtocol.AckConsumes` | fpga_common/include/rfic_progress_policy.h:65-84 | exactly when the acknowledgement of the n-th result consumes the retained one, however late or repeated |
| `RficProtocol.AckNamesItsResult` | fpga_common/include/rfic_progress_policy.h:65-84 | with fewer than 2^32 results an acknowledgement consumes only the result it names |
| `RficProtocol.AckAnswered` | hdl/fpga/platforms/common/bladerf/software/bladeRF_nios/src/devices_rfic.c:1335-1364 | it is answered iff that result is the retained one or the last one consumed |
| `RficProtocol.SlotIsFreed` | fpga_common/include/rfic_progress_policy.h:101-110 | a retained result blocks the next command, its own acknowledgement is always answered, and then the next command is taken |
| `RficProtocol.RetryIsHarmless` | hdl/fpga/platforms/common/bladerf/software/bladeRF_nios/src/devices_rfic.c:1290-1317 | until another command enters, repeating an accepted write is accepted without effect; its id with another command is refused |
| `RficProtocol.LateAckAfterWrap` | hdl/fpga/platforms/common/bladerf/software/bladeRF_nios/src/devices_rfic.c:1279-1280 | a reachable state in which an acknowledgement 2^32 results late consumes the newest result |
| `LoggerRing.PackUnpack` | firmware_common/logger_entry.h:54-72 | unpacking gives back the masked fields; which fields give the two marker words |
| `LoggerRing.PackUnits` | firmware_common/logger_entry.h:40-63 | the place of each field in the word, and the warning's word |
| `LoggerRing.UnpackPack` | firmware_common/logger_entry.h:54-72 | every 32-bit word is the packing of its fields |
| `LoggerRing.Ring.RecordEntry` | fx3_firmware/src/logger.c:77-113 | the queue grows by the entry, and the warning in the last slot; false iff full or not locked |
| `LoggerRing.Ring.ReadEntry` | fx3_firmware/src/logger.c:115-137 | the oldest entry leaves the queue |
| `LoggerRing.Ring.Replay` | fx3_firmware/src/logger.c:77-137 | over every run the ring refines the queue, answers included |
| `LoggerRing.Fifo` | fx3_firmware/src/logger.c:77-137 | everything stored is read in order or still queued, and at most n entries are |
| `LoggerRing.EveryEvent` | fx3_firmware/src/logger.c:77-137 | a record with room stores its entry, with the warning behind it when two slots are left; a read takes the oldest; nothing else changes anything |
| `LoggerRing.FullIsWarned` | fx3_firmware/src/logger.c:95-109 | a log with fewer than two free slots stored a warning when it last went past n - 2 entries |
| `LoggerRing.DropIsWarned` | fx3_firmware/src/logger.c:89-109 | a drop changes nothing and happens only after such a warning |
| `LoggerRing.MarkersMean` | fx3_firmware/src/logger.c:115-137 | for file ids 1..7 the end marker means empty and the error marker means no lock |
| `TxMute.Driver.Set` | fpga_common/src/ad936x_helpers.c:146-217 | the new state of the driver and hardware and the status, for every way a read or write fails |
| `TxMute.CallSound` | fpga_common/src/ad936x_helpers.c:146-217 | from a sound channel a call answers truly and leaves it sound, or loses the attenuation exactly in the named case |
| `TxMute.Independent` | fpga_common/src/ad936x_helpers.c:36-85 | each channel is driven by its own calls alone |
| `TxMute.SoundUnlessLost` | fpga_common/src/ad936x_helpers.c:146-217 | after any run the channel is sound unless a mute took effect while reported as failed before the first success |
| `TxMute.CachedIffSucceeded` | fpga_common/src/ad936x_helpers.c:103-127 | the cache is valid iff some call succeeded |
| `TxMute.RecordBelieved` | fpga_common/src/ad936x_helpers.c:146-217 | the recorded state is that of the last success, unless a write has failed since |
| `TxMute.EveryAnswer` | fpga_common/src/ad936x_helpers.c:146-217 | on either channel and from what the caller saw: the exact status of every further call and the attenuation after it; after the losing mute no call succeeds again |
| `TxMute.RefusedWritesAreSafe` | fpga_common/src/ad936x_helpers.c:146-217 | with no-effect failures only: hardware is v or 89750, every status is the expected one, a successful unmute leaves v and a successful mute 89750 |
| `TxMute.LossExample` | fpga_common/src/ad936x_helpers.c:173-203 | the losing mute, and the refused unmute after it |

## Left out

- Tuning.EstimateVcocap: exact rational arithmetic instead of floating point; only the 15..55 range of the estimate is used.
- LZMA decoding, the Cypress SDK, GPIF tables, USB descriptors and SPI opcodes: foreign code or data.
- SDK failures that end in the firmware's error handler, which never returns.
- Interface changes during a flash autoload, and the SPI flash driver's own start and stop: a reset clears the cached setting without shutting SPI down, so they are not balanced like the DMA channels.
- The GPIO lines, suspend policy and endpoint status bits that the link handlers also set: independent of channels and pause.
- Settle delays and busy waits: VTUNE readings are arbitrary, or settled where a theorem says so.
- PllRegisters.GetFrequency: requires a divider field of at least 3, because the code shifts by that field minus 3.
- PllRegisters.WritePllReg: the multiwrite alias reaches the same register; that it writes four registers at once is not modelled.
- PllRegisters.Retune: scheduled retunes, the clear-queue request and band selection on the RF front end are not modelled.
- The other packet headers (8x8, 8x16, 8x32, 8x64, 32x32, 16x64, retune2): their round trips only add easy members.
- The execution of RFIC commands: its reports are inputs. The ring indexes of that queue are not modelled; it is a sequence of at most 16 entries.
- Partial effects of a failing attenuation write: a failing write either lands completely or not at all.
- The parsing of ELF files and the consistency checks around the stack analysis, which supply its graph. The graph is taken to be closed, as the script's callers build it: a missing function would be a KeyError there.
- The gain tables of the AD936x, the XB boards and the other host tools: constants or plumbing.
