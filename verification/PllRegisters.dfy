/** Programming the PLL registers (`lms_set_precalculated_frequency`, `write_pll_config`), reading
    them back (`lms_get_frequency`), and the whole retune path from a requested frequency to the
    frequency the registers report. */
module PllRegisters {
  import opened Bytes
  import opened LmsChip
  import opened VcocapSearch
  import opened Tuning
  import opened RetunePacket

  predicate IsModule(m: Module) { m == RX || m == TX }

  function Base(m: Module): (b: int)
    ensures PllBase(b)
  {
    if m == RX then 0x20 else 0x10
  }

  datatype Loopback = NoLoopback | RfLna1 | RfLna2 | RfLna3 | TxlpfRxvga2 | Txvga1Rxvga2 | TxlpfRxlpf | Txvga1Rxlpf

  /** What registers 0x08 and 0x46 hold in each mode: an LNA number in the RF field takes precedence,
      then the baseband input, VGA2IN or LPFIN alone, with TXLPF or TXVGA connected to it. */
  predicate Selected(r: Regs, mode: Loopback) {
    var rf, bb := r[0x08] % 8, r[0x08] / 16 % 8;
    var txlpf, txvga := HasBit(r[0x46], 4), HasBit(r[0x46], 8);
    match mode
    case RfLna1 => rf == 1
    case RfLna2 => rf == 2
    case RfLna3 => rf == 3
    case TxlpfRxvga2 => rf !in {1, 2, 3} && bb == 2 && txlpf
    case Txvga1Rxvga2 => rf !in {1, 2, 3} && bb == 2 && !txlpf && txvga
    case TxlpfRxlpf => rf !in {1, 2, 3} && bb == 4 && txlpf
    case Txvga1Rxlpf => rf !in {1, 2, 3} && bb == 4 && !txlpf && txvga
    case NoLoopback => rf !in {1, 2, 3} && (bb !in {2, 4} || (!txlpf && !txvga))
  }

  /** Some mode is active. */
  predicate LoopbackEnabled(r: Regs) {
    var rf, bb, path := r[0x08] % 8, r[0x08] / 16 % 8, r[0x46] / 4 % 4;
    rf == 1 || rf == 2 || rf == 3 || ((bb == 2 || bb == 4) && path != 0)
  }

  /** FREQSEL in bits [7:2]; SELOUT in [1:0] is kept while a loopback is active. */
  function PllConfig(r: Regs, old5: byte, freqsel: byte, lowBand: bool): byte {
    freqsel % 64 * 4 + (if LoopbackEnabled(r) then old5 % 4 else if lowBand then 1 else 2)
  }

  /** `v | 0x05` and `v & ~0x05`: the DSM enables are bits 0 and 2. */
  function DsmOn(v: byte): (w: byte)
    ensures HasBit(w, 1) && HasBit(w, 4) && OtherThanDsms(v, w)
  {
    v - v % 8 + v / 2 % 2 * 2 + 5
  }

  function DsmOff(v: byte): (w: byte)
    ensures !HasBit(w, 1) && !HasBit(w, 4) && OtherThanDsms(v, w)
  {
    v - v % 8 + v / 2 % 2 * 2
  }

  predicate OtherThanDsms(v: byte, w: byte) { v / 8 == w / 8 && HasBit(v, 2) == HasBit(w, 2) }

  /** What is written for a set of parameters: the NINT/NFRAC bytes and the divider choice. */
  datatype PllWords = PllWords(b: seq<byte>, freqsel: byte, lowBand: bool)

  predicate FourBytes(w: PllWords) { |w.b| == 4 }

  function WordsOf(f: LmsFreq): (w: PllWords)
    requires 0 <= f.nint < 0x1_0000 && 0 <= f.nfrac < 0x1_0000_0000
    ensures FourBytes(w)
  {
    PllWords(IntFrac(f.nint, f.nfrac), f.freqsel, f.lowBand)
  }

  function DividersWritten(r: Regs, base: int, w: PllWords): Regs
    requires PllBase(base) && FourBytes(w)
  {
    r[base := w.b[0]][base + 1 := w.b[1]][base + 2 := w.b[2]][base + 3 := w.b[3]]
     [base + 5 := PllConfig(r, r[base + 5], w.freqsel, w.lowBand)]
  }

  /** The PLL registers written, with `cap` left in the VCOCAP field. */
  function PllWritten(r: Regs, base: int, w: PllWords, cap: int): Regs
    requires PllBase(base) && FourBytes(w) && 0 <= cap <= VCOCAP_MAX
  {
    DividersWritten(r, base, w)[base + 9 := CapReg(Above(r[base + 9]), cap)]
  }

  /** The register file after a retune: the PLL registers, and the DSM enables off. */
  function Programmed(r: Regs, base: int, w: PllWords, cap: int): Regs
    requires PllBase(base) && FourBytes(w) && 0 <= cap <= VCOCAP_MAX
  {
    var s := PllWritten(r[0x09 := DsmOn(r[0x09])], base, w, cap);
    s[0x09 := DsmOff(s[0x09])]
  }

  /** What `lms_get_frequency` decodes. */
  function ReadBack(r: Regs, base: int): LmsFreq
    requires PllBase(base) && r[base + 5] / 4 % 8 >= 3
  {
    LmsFreq(r[base + 5] / 4, Cap(r[base + 9]), JoinNint(r[base], r[base + 1]),
            JoinNfrac(r[base + 1], r[base + 2], r[base + 3]), false, false, 0, Ratio(r[base + 5] / 4))
  }

  predicate PllFootprint(base: int, a: int) {
    base <= a <= base + 3 || a == base + 5 || a == base + 9 || a == 0x09
  }

  /** SELOUT, bits [1:0], selects the low-band output 1 or the high-band output 2, or is kept while a
      loopback is active; the DSM enables of register 0x09 are off and its other bits are kept. */
  predicate OutputSelected(before: Regs, after: Regs, base: int, lowBand: bool)
    requires PllBase(base)
  {
    && after[base + 5] % 4 == (if LoopbackEnabled(before) then before[base + 5] % 4 else if lowBand then 1 else 2)
    && !HasBit(after[0x09], 1) && !HasBit(after[0x09], 4) && OtherThanDsms(before[0x09], after[0x09])
  }

  // ----- The code

  method GetLoopbackMode(chip: Chip) returns (status: Status, mode: Loopback)
    modifies chip`time, chip`lastSensed, chip`dc
    ensures chip.FaultFree() ==> status == Ok
    ensures status == Ok ==> forall other :: Selected(chip.regs, other) <==> other == mode
  {
    var lben, loopbben;
    mode := NoLoopback;
    status, lben := chip.Read(0x08);
    if status != Ok { return; }
    status, loopbben := chip.Read(0x46);
    if status != Ok { return; }
    if lben % 8 == 1 {
      mode := RfLna1;
    } else if lben % 8 == 2 {
      mode := RfLna2;
    } else if lben % 8 == 3 {
      mode := RfLna3;
    } else if lben / 16 % 8 == 2 {
      if HasBit(loopbben, 4) {
        mode := TxlpfRxvga2;
      } else if HasBit(loopbben, 8) {
        mode := Txvga1Rxvga2;
      }
    } else if lben / 16 % 8 == 4 {
      if HasBit(loopbben, 4) {
        mode := TxlpfRxlpf;
      } else if HasBit(loopbben, 8) {
        mode := Txvga1Rxlpf;
      }
    }
  }

  method IsLoopbackEnabled(chip: Chip) returns (status: Status, enabled: bool)
    modifies chip`time, chip`lastSensed, chip`dc
    ensures chip.FaultFree() ==> status == Ok
    ensures status == Ok ==> enabled == LoopbackEnabled(chip.regs)
  {
    var mode;
    status, mode := GetLoopbackMode(chip);
    enabled := mode != NoLoopback;
    PathBits(chip.regs[0x46]);
    assert Selected(chip.regs, NoLoopback) <==> !LoopbackEnabled(chip.regs);
  }

  lemma PathBits(v: byte)
    ensures v / 4 % 4 != 0 <==> HasBit(v, 4) || HasBit(v, 8)
  {
  }

  method WritePllConfig(chip: Chip, m: Module, freqsel: byte, lowBand: bool) returns (status: Status)
    requires IsModule(m)
    modifies chip`time, chip`regs, chip`writes, chip`lastSensed, chip`dc
    ensures chip.FaultFree() ==> status == Ok
    ensures status == Ok ==>
              chip.regs == old(chip.regs)[Base(m) + 5 := PllConfig(old(chip.regs), old(chip.regs[Base(m) + 5]), freqsel, lowBand)]
    ensures chip.regs == old(chip.regs)[Base(m) + 5 := chip.regs[Base(m) + 5]]
  {
    var addr := if m == TX then 0x15 else 0x25;
    var regval, loopback;
    status, regval := chip.Read(addr);
    if status != Ok { return; }
    status, loopback := IsLoopbackEnabled(chip);
    if status != Ok { return; }
    if !loopback {
      var selout := if lowBand then 1 else 2;
      regval := freqsel % 64 * 4 + selout;
    } else {
      regval := regval % 4 + freqsel % 64 * 4;
    }
    status := chip.Write(addr, regval);
  }

  method WritePllReg(chip: Chip, base: int, multiwrite: bool, k: nat, value: byte) returns (status: Status)
    requires PllBase(base) && k < 4
    modifies chip`time, chip`regs, chip`writes, chip`dc
    ensures chip.FaultFree() ==> status == Ok
    ensures status == Ok ==> chip.regs == old(chip.regs)[base + k := value]
    ensures forall a :: 0 <= a < 128 && a != base + k ==> chip.regs[a] == old(chip.regs[a])
  {
    status := chip.Write((if multiwrite then base + 0x80 else base) + k, value);
  }

  method WriteIntFrac(chip: Chip, base: int, multiwrite: bool, nint: uint16, nfrac: uint32) returns (status: Status)
    requires PllBase(base)
    modifies chip`time, chip`regs, chip`writes, chip`dc
    ensures chip.FaultFree() ==> status == Ok
    ensures forall a :: 0 <= a < 128 && !(base <= a <= base + 3) ==> chip.regs[a] == old(chip.regs[a])
    ensures status == Ok ==> chip.regs[base..base + 4] == IntFrac(nint, nfrac)
  {
    var data := IntFrac(nint, nfrac);
    status := WritePllReg(chip, base, multiwrite, 0, data[0]);
    if status != Ok { return; }
    status := WritePllReg(chip, base, multiwrite, 1, data[1]);
    if status != Ok { return; }
    status := WritePllReg(chip, base, multiwrite, 2, data[2]);
    if status != Ok { return; }
    status := WritePllReg(chip, base, multiwrite, 3, data[3]);
  }

  /** Read-modify-write of the DSM enables in register 0x09. */
  method SetDsms(chip: Chip, on: bool) returns (status: Status)
    modifies chip`time, chip`regs, chip`writes, chip`lastSensed, chip`dc
    ensures chip.FaultFree() ==> status == Ok
    ensures status == Ok ==> chip.regs == old(chip.regs)[0x09 := if on then DsmOn(old(chip.regs[0x09])) else DsmOff(old(chip.regs[0x09]))]
    ensures chip.regs == old(chip.regs)[0x09 := chip.regs[0x09]]
  {
    var data;
    status, data := chip.Read(0x09);
    if status == Ok {
      status := chip.Write(0x09, if on then DsmOn(data) else DsmOff(data));
    }
  }

  /** Program the estimate, the output divider and NINT/NFRAC, then search VCOCAP unless the
      caller forces its hint. */
  method ProgramPll(chip: Chip, m: Module, f: LmsFreq, multiwrite: bool, ghost h: int, ghost l: int)
    returns (status: Status, vcocapResult: int)
    requires IsModule(m)
    requires f.vcocap <= VCOCAP_MAX && 0 <= f.nint < 0x1_0000 && 0 <= f.nfrac < 0x1_0000_0000
    modifies chip`time, chip`regs, chip`writes, chip`lastSensed, chip`dc
    ensures forall a :: 0 <= a < 128 && !PllFootprint(Base(m), a) ==> chip.regs[a] == old(chip.regs[a])
    ensures status == Ok ==> 0 <= vcocapResult <= VCOCAP_MAX
    ensures chip.FaultFree() ==>
              && chip.regs == PllWritten(old(chip.regs), Base(m), WordsOf(f), Cap(chip.regs[Base(m) + 9]))
              && (f.forceVcocap ==> status == Ok && vcocapResult == f.vcocap)
              && (status == Ok ==> Cap(chip.regs[Base(m) + 9]) == vcocapResult)
    ensures Settled(chip, Base(m), h, l) && Window(h, l) && !f.forceVcocap ==>
              if FirstWalk(f.vcocap, h, l) <= 20
              then status == Ok && vcocapResult == h + (l - h) / 2
              else status == Unexpected
  {
    var base := Base(m);
    var state;
    vcocapResult := 0xff;
    status, state := WritePll(chip, m, f, multiwrite);
    if status != Ok { return; }
    if f.forceVcocap {
      vcocapResult := f.vcocap;
    } else {
      status, vcocapResult := TuneVcocap(chip, f.vcocap, base, state, h, l);
      CapRewritten(old(chip.regs), chip.regs, base, WordsOf(f), f.vcocap);
    }
  }

  /** The registers of the PLL, with the VCOCAP estimate; `state` is what is kept above the code. */
  method WritePll(chip: Chip, m: Module, f: LmsFreq, multiwrite: bool) returns (status: Status, state: byte)
    requires IsModule(m)
    requires f.vcocap <= VCOCAP_MAX && 0 <= f.nint < 0x1_0000 && 0 <= f.nfrac < 0x1_0000_0000
    modifies chip`time, chip`regs, chip`writes, chip`lastSensed, chip`dc
    ensures CapState(state)
    ensures forall a :: 0 <= a < 128 && !PllFootprint(Base(m), a) ==> chip.regs[a] == old(chip.regs[a])
    ensures chip.FaultFree() ==> status == Ok
    ensures status == Ok ==> state == Above(old(chip.regs[Base(m) + 9])) && chip.regs == PllWritten(old(chip.regs), Base(m), WordsOf(f), f.vcocap)
  {
    var base := Base(m);
    status, state := chip.Read(base + 9);
    state := Above(state);
    if status != Ok { return; }
    status := WriteVcocap(chip, base, f.vcocap, state);
    if status != Ok { return; }
    status := WritePllConfig(chip, m, f.freqsel, f.lowBand);
    if status != Ok { return; }
    status := WriteIntFrac(chip, base, multiwrite, f.nint, f.nfrac);
    if status != Ok { return; }
    PllWrittenBy(old(chip.regs), chip.regs, base, WordsOf(f), f.vcocap);
  }

  /** The order in which the registers were written does not matter. */
  lemma PllWrittenBy(r: Regs, s: Regs, base: int, w: PllWords, cap: int)
    requires PllBase(base) && FourBytes(w) && 0 <= cap <= VCOCAP_MAX
    requires s[base..base + 4] == w.b
    requires s[base + 5] == PllConfig(r, r[base + 5], w.freqsel, w.lowBand)
    requires s[base + 9] == CapReg(Above(r[base + 9]), cap)
    requires forall a :: 0 <= a < 128 && !(base <= a <= base + 3) && a != base + 5 && a != base + 9 ==> s[a] == r[a]
    ensures s == PllWritten(r, base, w, cap)
  {
    var p := PllWritten(r, base, w, cap);
    assert s[base] == w.b[0] && s[base + 1] == w.b[1] && s[base + 2] == w.b[2] && s[base + 3] == w.b[3];
    assert forall a :: 0 <= a < 128 ==> s[a] == p[a];
  }

  lemma CapRewritten(r: Regs, s: Regs, base: int, w: PllWords, cap: int)
    requires PllBase(base) && FourBytes(w) && 0 <= cap <= VCOCAP_MAX
    requires s == PllWritten(r, base, w, cap)[base + 9 := s[base + 9]]
    requires Above(s[base + 9]) == Above(r[base + 9])
    ensures s == PllWritten(r, base, w, Cap(s[base + 9]))
  {
    CapSplit(s[base + 9]);
    Overwritten(DividersWritten(r, base, w), base + 9, CapReg(Above(r[base + 9]), cap), s[base + 9]);
  }

  lemma CapSplit(b: byte)
    ensures CapState(Above(b)) && CapReg(Above(b), Cap(b)) == b
  {
  }

  lemma Overwritten(r: Regs, i: int, v: byte, w: byte)
    requires 0 <= i < 128
    ensures r[i := v][i := w] == r[i := w]
  {
  }

  method SetPrecalculatedFrequency(chip: Chip, m: Module, f: LmsFreq, multiwrite: bool, ghost h: int, ghost l: int)
    returns (status: Status, vcocapResult: int)
    requires IsModule(m)
    requires f.vcocap <= VCOCAP_MAX && 0 <= f.nint < 0x1_0000 && 0 <= f.nfrac < 0x1_0000_0000
    modifies chip`time, chip`regs, chip`writes, chip`lastSensed, chip`dc
    ensures forall a :: 0 <= a < 128 && !PllFootprint(Base(m), a) ==> chip.regs[a] == old(chip.regs[a])
    ensures status == Ok ==> 0 <= vcocapResult <= VCOCAP_MAX
    ensures chip.FaultFree() ==>
              && chip.regs == Programmed(old(chip.regs), Base(m), WordsOf(f), Cap(chip.regs[Base(m) + 9]))
              && (f.forceVcocap ==> status == Ok && vcocapResult == f.vcocap)
              && (status == Ok ==> Cap(chip.regs[Base(m) + 9]) == vcocapResult)
    ensures Settled(chip, Base(m), h, l) && Window(h, l) && !f.forceVcocap ==>
              if FirstWalk(f.vcocap, h, l) <= 20
              then status == Ok && vcocapResult == h + (l - h) / 2
              else status == Unexpected
  {
    vcocapResult := 0xff;
    status := SetDsms(chip, true);
    if status != Ok { return; }
    status, vcocapResult := ProgramPll(chip, m, f, multiwrite, h, l);
    var dsmStatus := SetDsms(chip, false);
    if status == Ok {
      status := dsmStatus;
    }
  }

  method ReadIntFrac(chip: Chip, base: int) returns (status: Status, nint: int, nfrac: int)
    requires PllBase(base)
    modifies chip`time, chip`lastSensed, chip`dc
    ensures chip.FaultFree() ==> status == Ok
    ensures status == Ok ==>
              && nint == JoinNint(chip.regs[base], chip.regs[base + 1])
              && nfrac == JoinNfrac(chip.regs[base + 1], chip.regs[base + 2], chip.regs[base + 3])
  {
    var b0, b1, b2, b3;
    nint, nfrac := 0, 0;
    status, b0 := chip.Read(base);
    if status != Ok { return; }
    status, b1 := chip.Read(base + 1);
    if status != Ok { return; }
    status, b2 := chip.Read(base + 2);
    if status != Ok { return; }
    status, b3 := chip.Read(base + 3);
    if status != Ok { return; }
    nint, nfrac := JoinNint(b0, b1), JoinNfrac(b1, b2, b3);
  }

  /** The shift amount `(freqsel & 7) - 3` must not be negative. */
  method GetFrequency(chip: Chip, m: Module) returns (status: Status, f: LmsFreq)
    requires IsModule(m)
    requires chip.regs[Base(m) + 5] / 4 % 8 >= 3
    modifies chip`time, chip`lastSensed, chip`dc
    ensures chip.FaultFree() ==> status == Ok
    ensures status == Ok ==> f == ReadBack(chip.regs, Base(m))
  {
    var base := Base(m);
    var nint, nfrac, config, cap;
    f := LmsFreq(0, 0, 0, 0, false, false, 0, 1);
    status, nint, nfrac := ReadIntFrac(chip, base);
    if status != Ok { return; }
    status, config := chip.Read(base + 5);
    if status != Ok { return; }
    status, cap := chip.Read(base + 9);
    if status != Ok { return; }
    f := LmsFreq(config / 4, Cap(cap), nint, nfrac, false, false, 0, Ratio(config / 4));
  }

  // ----- Round trips

  lemma PllConfigField(r: Regs, old5: byte, freqsel: byte, lowBand: bool)
    requires freqsel < 64
    ensures PllConfig(r, old5, freqsel, lowBand) / 4 == freqsel
  {
  }

  lemma UpdatedFields(r: Regs, base: int, b: seq<byte>, config: byte, cap: byte, dsm: byte)
    requires PllBase(base) && |b| == 4
    ensures var s := r[base := b[0]][base + 1 := b[1]][base + 2 := b[2]][base + 3 := b[3]][base + 5 := config][base + 9 := cap][0x09 := dsm];
            && s[base] == b[0] && s[base + 1] == b[1] && s[base + 2] == b[2] && s[base + 3] == b[3]
            && s[base + 5] == config && s[base + 9] == cap
  {
  }

  lemma ProgrammedFields(r: Regs, base: int, w: PllWords, cap: int)
    requires PllBase(base) && FourBytes(w) && 0 <= cap <= VCOCAP_MAX
    ensures var s, r1 := Programmed(r, base, w, cap), r[0x09 := DsmOn(r[0x09])];
            && s[base] == w.b[0] && s[base + 1] == w.b[1] && s[base + 2] == w.b[2] && s[base + 3] == w.b[3]
            && s[base + 5] == PllConfig(r1, r1[base + 5], w.freqsel, w.lowBand)
            && s[base + 9] == CapReg(Above(r1[base + 9]), cap)
  {
    var r1 := r[0x09 := DsmOn(r[0x09])];
    var s := PllWritten(r1, base, w, cap);
    UpdatedFields(r1, base, w.b, PllConfig(r1, r1[base + 5], w.freqsel, w.lowBand),
                  CapReg(Above(r1[base + 9]), cap), DsmOff(s[0x09]));
  }

  lemma CapOfCapReg(state: byte, v: int)
    requires CapState(state) && 0 <= v <= VCOCAP_MAX
    ensures Cap(CapReg(state, v)) == v
  {
  }

  /** The registers give back the divider, the VCOCAP code and the words that were written. */
  lemma ReadBackProgrammed(r: Regs, base: int, w: PllWords, cap: int)
    requires PllBase(base) && FourBytes(w) && 0 <= cap <= VCOCAP_MAX
    requires w.freqsel < 64 && w.freqsel % 8 >= 3
    ensures var s := Programmed(r, base, w, cap);
            && s[base + 5] / 4 == w.freqsel
            && ReadBack(s, base) == LmsFreq(w.freqsel, cap, JoinNint(w.b[0], w.b[1]), JoinNfrac(w.b[1], w.b[2], w.b[3]),
                                            false, false, 0, Ratio(w.freqsel))
  {
    var r1 := r[0x09 := DsmOn(r[0x09])];
    ProgrammedFields(r, base, w, cap);
    PllConfigField(r1, r1[base + 5], w.freqsel, w.lowBand);
    CapOfCapReg(Above(r1[base + 9]), cap);
  }

  /** The request libbladeRF sends for a set of tuning parameters. */
  function RequestFor(m: Module, timestamp: uint64, f: LmsFreq): Request
    requires 0 <= f.nint < 0x1_0000 && 0 <= f.nfrac < 0x1_0000_0000
  {
    Request(m, timestamp, f.nint, f.nfrac, f.freqsel, f.vcocap, f.lowBand, f.xbGpio, f.forceVcocap)
  }

  /** The parameters the NIOS rebuilds from a received request (it never uses the ratio). */
  function FromRequest(q: Request): LmsFreq {
    LmsFreq(q.freqsel, q.vcocap, q.nint, q.nfrac, q.lowBand, q.quickTune, q.xbGpio, 0)
  }

  /** What the NIOS programs when the host asks for f. */
  function Received(m: Module, timestamp: uint64, f: LmsFreq): LmsFreq
    requires 0 <= f.nint < 0x1_0000 && 0 <= f.nfrac < 0x1_0000_0000
  {
    FromRequest(Unpacked(Packed(RequestFor(m, timestamp, f))))
  }

  /** Parameters the host computes: within the packet's fields except for bit 23 of nfrac. */
  predicate HostParams(f: LmsFreq) {
    && 0 <= f.nint < 512 && 0 <= f.nfrac <= FRAC && f.vcocap < 64
    && f.freqsel < 64 && f.freqsel % 8 >= 4 && f.x == Ratio(f.freqsel)
    && !f.forceVcocap && f.xbGpio == 0
  }

  lemma ParamsInRange(freq: int)
    requires FREQ_MIN <= freq <= FREQ_MAX
    ensures HostParams(TuningParams(freq))
  {
    BandFound(freq);
    SplitFits(freq);
  }

  /** The packet carries everything but bit 23 of the fraction (and the ratio, which freqsel implies). */
  lemma PacketSurvives(m: Module, timestamp: uint64, f: LmsFreq)
    requires HostParams(f)
    ensures Received(m, timestamp, f) == f.(nfrac := f.nfrac % FRAC, x := 0)
  {
    FractionTruncates(RequestFor(m, timestamp, f));
  }

  /** And so do the registers. */
  lemma RegistersSurvive(f: LmsFreq, p: LmsFreq, r: Regs, base: int, cap: int)
    requires HostParams(f) && 0 <= p.nfrac < FRAC && p == f.(nfrac := p.nfrac, x := 0)
    requires PllBase(base) && 0 <= cap <= VCOCAP_MAX
    ensures var s := Programmed(r, base, WordsOf(p), cap);
            && s[base + 5] / 4 == f.freqsel
            && ReadBack(s, base) == f.(vcocap := cap, nfrac := p.nfrac, lowBand := false)
  {
    ReadBackProgrammed(r, base, WordsOf(p), cap);
    FittingFields(p.nint, p.nfrac);
  }

  lemma FittingFields(nint: uint16, nfrac: uint32)
    requires nint < 512 && nfrac < FRAC
    ensures var b := IntFrac(nint, nfrac);
            JoinNint(b[0], b[1]) == nint && JoinNfrac(b[1], b[2], b[3]) == nfrac
  {
    LowBits(nfrac);
    FieldsRoundTrip(nint, nfrac);
  }

  /** Packet and registers are the identity on (nint, nfrac) exactly off the RoundsUp set. */
  lemma SplitSurvives(m: Module, timestamp: uint64, freq: int, r: Regs, base: int, cap: int)
    requires FREQ_MIN <= freq <= FREQ_MAX
    requires PllBase(base) && 0 <= cap <= VCOCAP_MAX
    ensures var f := TuningParams(freq);
            && HostParams(f)
            && var p := Received(m, timestamp, f);
               var s := Programmed(r, base, WordsOf(p), cap);
               && s[base + 5] / 4 == f.freqsel
               && var g := ReadBack(s, base);
                  && p.nint == g.nint == f.nint
                  && (p.nfrac == f.nfrac <==> !RoundsUp(freq))
                  && (g.nfrac == f.nfrac <==> !RoundsUp(freq))
  {
    ParamsInRange(freq);
    var f := TuningParams(freq);
    FractionKept(freq);
    PacketSurvives(m, timestamp, f);
    RegistersSurvive(f, Received(m, timestamp, f), r, base, cap);
  }

  lemma FractionKept(freq: int)
    requires FREQ_MIN <= freq <= FREQ_MAX
    ensures var n := TuningParams(freq).nfrac; n % FRAC == n <==> !RoundsUp(freq)
  {
    SplitFits(freq);
    LowBitsKept(TuningParams(freq).nfrac);
  }

  lemma LowBitsKept(n: int)
    requires 0 <= n <= FRAC
    ensures n % FRAC == n <==> n != FRAC
  {
  }

  /** End to end: the frequency read from the registers is within 1 Hz of the request, and exactly
      the request up to 950 MHz, if and only if the fraction did not round up to 2^23. */
  lemma EndToEnd(m: Module, timestamp: uint64, freq: int, r: Regs, base: int, cap: int)
    requires FREQ_MIN <= freq <= FREQ_MAX
    requires PllBase(base) && 0 <= cap <= VCOCAP_MAX
    ensures HostParams(TuningParams(freq))
    ensures var s := Programmed(r, base, WordsOf(Received(m, timestamp, TuningParams(freq))), cap);
            && s[base + 5] / 4 % 8 >= 3
            && var hz := ToHz(ReadBack(s, base));
               && (-1 <= hz - freq <= 1 <==> !RoundsUp(freq))
               && (freq <= 950000000 ==> hz == freq)
               && (RoundsUp(freq) ==> hz == freq - 19199999)
    ensures OutputSelected(r, Programmed(r, base, WordsOf(Received(m, timestamp, TuningParams(freq))), cap), base, freq < 1500000000)
  {
    ParamsInRange(freq);
    var f := TuningParams(freq);
    PacketSurvives(m, timestamp, f);
    RegistersSurvive(f, Received(m, timestamp, f), r, base, cap);
    HzError(freq);
    TruncatedFraction(freq);
    SameHz(f.(vcocap := cap, nfrac := f.nfrac % FRAC, lowBand := false), f.(nfrac := f.nfrac % FRAC));
    OutputBits(r, base, WordsOf(Received(m, timestamp, f)), cap);
  }

  lemma OutputBits(r: Regs, base: int, w: PllWords, cap: int)
    requires PllBase(base) && FourBytes(w) && 0 <= cap <= VCOCAP_MAX
    ensures OutputSelected(r, Programmed(r, base, w, cap), base, w.lowBand)
  {
    var r1 := r[0x09 := DsmOn(r[0x09])];
    ProgrammedFields(r, base, w, cap);
    assert LoopbackEnabled(r1) == LoopbackEnabled(r) && r1[base + 5] == r[base + 5];
    SeloutBits(r1, r[base + 5], w.freqsel, w.lowBand);
    assert PllWritten(r1, base, w, cap)[0x09] == DsmOn(r[0x09]);
  }

  lemma SeloutBits(r: Regs, old5: byte, freqsel: byte, lowBand: bool)
    ensures PllConfig(r, old5, freqsel, lowBand) % 4 == if LoopbackEnabled(r) then old5 % 4 else if lowBand then 1 else 2
  {
  }

  lemma SameHz(f: LmsFreq, g: LmsFreq)
    requires f.x == g.x > 0 && f.nint == g.nint && f.nfrac == g.nfrac
    ensures ToHz(f) == ToHz(g)
  {
  }

  /** The retune path as one run: host calculation, packet, NIOS programming, register readback.
      On a fault-free chip with VTUNE settled around (h, l) the tuning succeeds exactly if the first
      VCOCAP walk is short enough, and the registers then report the requested frequency. */
  method Retune(chip: Chip, m: Module, requested: int, multiwrite: bool, ghost h: int, ghost l: int)
    returns (status: Status, hz: int)
    requires IsModule(m)
    requires 0 <= requested < 0x1_0000_0000
    modifies chip`time, chip`regs, chip`writes, chip`lastSensed, chip`dc
    ensures Settled(chip, Base(m), h, l) && Window(h, l) ==>
              var freq := Clamp(requested);
              && (status == Ok <==> FirstWalk(TuningParams(freq).vcocap, h, l) <= 20)
              && (status == Ok ==>
                    && (-1 <= hz - freq <= 1 <==> !RoundsUp(freq))
                    && (freq <= 950000000 ==> hz == freq)
                    && h < Cap(chip.regs[Base(m) + 9]) < l)
              && OutputSelected(old(chip.regs), chip.regs, Base(m), freq < 1500000000)
  {
    hz := 0;
    ghost var before := chip.regs;
    var ok, f := CalculateTuningParams(requested);
    ghost var freq := Clamp(requested);
    ParamsInRange(freq);
    PacketSurvives(m, 0, f);
    var buf := new byte[SIZE];
    Pack(buf, m, 0, f.nint, f.nfrac, f.freqsel, f.vcocap, f.lowBand, f.xbGpio, f.forceVcocap);
    var q := Unpack(buf);
    var p := FromRequest(q);
    assert p == Received(m, 0, f);
    status, ok, hz := ProgramAndRead(chip, m, p, multiwrite, h, l);
    if chip.FaultFree() {
      EndToEnd(m, 0, freq, before, Base(m), Cap(chip.regs[Base(m) + 9]));
    }
  }

  method ProgramAndRead(chip: Chip, m: Module, p: LmsFreq, multiwrite: bool, ghost h: int, ghost l: int)
    returns (status: Status, read: bool, hz: int)
    requires IsModule(m)
    requires p.vcocap <= VCOCAP_MAX && 0 <= p.nint < 512 && 0 <= p.nfrac < 0x1_0000_0000 && !p.forceVcocap
    requires p.freqsel < 64 && p.freqsel % 8 >= 3
    modifies chip`time, chip`regs, chip`writes, chip`lastSensed, chip`dc
    ensures Settled(chip, Base(m), h, l) && Window(h, l) ==>
              && (status == Ok <==> FirstWalk(p.vcocap, h, l) <= 20)
              && chip.regs == Programmed(old(chip.regs), Base(m), WordsOf(p), Cap(chip.regs[Base(m) + 9]))
              && chip.regs[Base(m) + 5] / 4 % 8 >= 3
              && (status == Ok ==> hz == ToHz(ReadBack(chip.regs, Base(m))) && h < Cap(chip.regs[Base(m) + 9]) < l)
  {
    var cap, g;
    hz, read := 0, false;
    ghost var before := chip.regs;
    status, cap := SetPrecalculatedFrequency(chip, m, p, multiwrite, h, l);
    if chip.FaultFree() {
      ReadBackProgrammed(before, Base(m), WordsOf(p), Cap(chip.regs[Base(m) + 9]));
    }
    if status == Ok && chip.regs[Base(m) + 5] / 4 % 8 >= 3 {
      status, g := GetFrequency(chip, m);
      if status == Ok {
        hz, read := ToHz(g), true;
      }
    }
  }
}
