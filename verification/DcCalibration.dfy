/** `lms_calibrate_dc`: backup, set-up, a retry loop over gains, shutdown and restore, after section
    4.1 of the LMS6002D Programming and Calibration Guide. */
module DcCalibration {
  import opened Bytes
  import opened LmsChip

  datatype CalModule = LpfTuning | TxLpf | RxLpf | RxVga2 | InvalidModule

  const VGA1_MIN: int := 5
  const VGA1_MAX: int := 30
  const VGA2_MIN: int := 0
  const VGA2_MAX: int := 30
  const LNA_MAX: int := 3
  const MAX_POLLS: int := 25

  /** rxvga1_lut_code2val: the table is nondecreasing, given by the first code of each gain. */
  function Code2Val(code: nat): (g: int)
    requires code <= 120
    ensures VGA1_MIN <= g <= VGA1_MAX
  {
    if code < 8 then 5 else if code < 21 then 6 else if code < 32 then 7 else if code < 43 then 8 else if code < 52 then 9 else
    if code < 60 then 10 else if code < 67 then 11 else if code < 74 then 12 else if code < 80 then 13 else if code < 85 then 14 else
    if code < 90 then 15 else if code < 94 then 16 else if code < 97 then 17 else if code < 101 then 18 else if code < 104 then 19 else
    if code < 106 then 20 else if code < 108 then 21 else if code < 111 then 22 else if code < 112 then 23 else if code < 114 then 24 else
    if code < 116 then 25 else if code < 117 then 26 else if code < 118 then 27 else if code < 119 then 28 else if code < 120 then 29 else
    30
  }

  /** rxvga1_lut_val2code for the gains that pass the clamp. */
  function Val2Code(gain: int): (c: byte)
    requires VGA1_MIN <= gain <= VGA1_MAX
    ensures c <= 120
  {
    match gain
    case 5 => 2
    case 6 => 14
    case 7 => 26
    case 8 => 37
    case 9 => 47
    case 10 => 56
    case 11 => 63
    case 12 => 70
    case 13 => 76
    case 14 => 82
    case 15 => 87
    case 16 => 91
    case 17 => 95
    case 18 => 99
    case 19 => 102
    case 20 => 104
    case 21 => 107
    case 22 => 109
    case 23 => 111
    case 24 => 113
    case 25 => 114
    case 26 => 116
    case 27 => 117
    case 28 => 118
    case 29 => 119
    case _ => 120
  }

  function Clamp(v: int, lo: int, hi: int): (r: int)
    requires lo <= hi
    ensures lo <= r <= hi && (lo <= v <= hi ==> r == v)
  {
    if v > hi then hi else if v < lo then lo else v
  }

  // ----- Gain registers

  /** The RXVGA1 gain in dB that register 0x76 reads back as. */
  function Vga1Gain(code: byte): (g: int)
    ensures VGA1_MIN <= g <= VGA1_MAX
  {
    var c := if code % 128 > 120 then 120 else code % 128;
    Code2Val(c)
  }

  /** The RXVGA2 gain register 0x65 reads back as: 3 dB per code, in eight bits. */
  function Vga2Gain(code: byte): byte { (code as int * 3) % 256 }

  function Vga1Code(gain: int): byte { Val2Code(Clamp(gain, VGA1_MIN, VGA1_MAX)) }

  function Vga2Code(gain: int): (c: byte)
    ensures c <= 10
  {
    Clamp(gain, VGA2_MIN, VGA2_MAX) / 3
  }

  /** Writing a readback gain reads back as the same gain. */
  lemma Vga1RoundTrip(gain: int)
    requires VGA1_MIN <= gain <= VGA1_MAX
    ensures Vga1Gain(Vga1Code(gain)) == gain
  {
    assert Code2Val(Val2Code(gain)) == gain;
  }

  /** The RXVGA2 register survives a readback and rewrite exactly if its code is at most 10. */
  lemma Vga2RoundTrip(code: byte)
    ensures Vga2Code(Vga2Gain(code)) == code <==> code <= 10
  {
  }

  // ----- What the calibration may leave changed

  /** Registers that a module's calibration works in and does not put back. */
  function WorkRegs(m: CalModule): set<int> {
    match m
    case LpfTuning => {0x02, 0x03, 0x35, 0x55}
    case TxLpf => {0x32, 0x33, 0x36, 0x3f}
    case RxLpf => {0x52, 0x53, 0x5f, 0x65, 0x76}
    case RxVga2 => {0x62, 0x63, 0x64, 0x65, 0x68, 0x6e, 0x76}
    case InvalidModule => {}
  }

  /** Those of them that an attempt writes. */
  function CalRegs(m: CalModule): (s: set<int>)
    ensures s <= WorkRegs(m)
  {
    match m
    case LpfTuning => {0x02, 0x03, 0x35, 0x55}
    case TxLpf => {0x32, 0x33}
    case RxLpf => {0x52, 0x53}
    case RxVga2 => {0x62, 0x63, 0x64, 0x68}
    case InvalidModule => {}
  }

  predicate IsRx(m: CalModule) { m == RxLpf || m == RxVga2 }

  /** Registers changed for the time of the calibration only. */
  function BorrowedRegs(m: CalModule): set<int> { if IsRx(m) then {0x09, 0x72, 0x75} else {0x09} }

  ghost predicate SameExcept(r: Regs, s: Regs, touched: set<int>) {
    forall a :: 0 <= a < 128 && a !in touched ==> r[a] == s[a]
  }

  /** The most calibration attempts a module gets. */
  function MaxAttempts(m: CalModule): nat {
    match m
    case RxLpf => 26
    case RxVga2 => 36
    case InvalidModule => 0
    case _ => 1
  }

  /** Retries left at the current gains. */
  function RetriesLeft(m: CalModule, vga1: int, vga2: int): int {
    match m
    case RxLpf => vga1 - VGA1_MIN
    case RxVga2 => vga1 - VGA1_MIN + vga2 / 3
    case _ => 0
  }

  /** `struct dc_cal_state`. */
  datatype CalState = CalState(clkEn: byte, reg72: byte, lnaGain: byte, vga1Gain: int, vga2Gain: int,
                               base: int, submodules: nat, vga1Curr: int, vga2Curr: int)

  function BaseAddr(m: CalModule): int {
    match m
    case LpfTuning => 0x00
    case TxLpf => 0x30
    case RxLpf => 0x50
    case RxVga2 => 0x60
    case InvalidModule => 0
  }

  function Submodules(m: CalModule): nat {
    match m
    case LpfTuning => 1
    case TxLpf => 2
    case RxLpf => 2
    case RxVga2 => 5
    case InvalidModule => 0
  }

  // ----- Register helpers

  /** The bit fields that lms_set and lms_clear are used on. */
  datatype Field = TopBit | TopTwo | LowBit

  function SetField(f: Field, v: byte): byte {
    match f
    case TopBit => v % 128 + 128
    case TopTwo => v % 64 + 192
    case LowBit => v - v % 2 + 1
  }

  function ClearField(f: Field, v: byte): byte {
    match f
    case TopBit => v % 128
    case TopTwo => v % 64
    case LowBit => v - v % 2
  }

  method LmsSet(chip: Chip, addr: int, f: Field) returns (status: Status)
    requires 0 <= addr < 128 && !Sensed(addr)
    modifies chip`time, chip`regs, chip`writes, chip`lastSensed, chip`dc
    ensures chip.lastSensed == old(chip.lastSensed)
    ensures OutsideBlocks(addr) ==> chip.dc == old(chip.dc)
    ensures chip.FaultFree() ==> status == Ok && chip.regs == old(chip.regs)[addr := SetField(f, old(chip.regs[addr]))]
  {
    var v;
    status, v := chip.Read(addr);
    if status != Ok { return; }
    status := chip.Write(addr, SetField(f, v));
  }

  method LmsClear(chip: Chip, addr: int, f: Field) returns (status: Status)
    requires 0 <= addr < 128 && !Sensed(addr)
    modifies chip`time, chip`regs, chip`writes, chip`lastSensed, chip`dc
    ensures chip.lastSensed == old(chip.lastSensed)
    ensures OutsideBlocks(addr) ==> chip.dc == old(chip.dc)
    ensures chip.FaultFree() ==> status == Ok && chip.regs == old(chip.regs)[addr := ClearField(f, old(chip.regs[addr]))]
  {
    var v;
    status, v := chip.Read(addr);
    if status != Ok { return; }
    status := chip.Write(addr, ClearField(f, v));
  }

  method LnaSetGain(chip: Chip, gain: byte) returns (status: Status)
    modifies chip`time, chip`regs, chip`writes, chip`lastSensed, chip`dc
    ensures chip.dc == old(chip.dc)
    ensures chip.lastSensed == old(chip.lastSensed)
    ensures chip.FaultFree() && 1 <= gain <= 3 ==>
              status == Ok && chip.regs == old(chip.regs)[0x75 := old(chip.regs[0x75]) % 64 + gain * 64]
  {
    if 1 <= gain <= 3 {
      var data;
      status, data := chip.Read(0x75);
      if status == Ok {
        status := chip.Write(0x75, data % 64 + gain * 64);
      }
    } else {
      status := Inval;
    }
  }

  method LnaGetGain(chip: Chip) returns (status: Status, gain: byte)
    modifies chip`time, chip`lastSensed, chip`dc
    ensures chip.dc == old(chip.dc)
    ensures gain <= 3
    ensures chip.FaultFree() ==> gain == chip.regs[0x75] / 64 && status == if gain == 0 then Inval else Ok
  {
    var data;
    gain := 0;
    status, data := chip.Read(0x75);
    if status == Ok {
      gain := data / 64;
      if gain == 0 {
        status := Inval;
      }
    }
  }

  method Vga1SetGain(chip: Chip, gain: int) returns (status: Status)
    modifies chip`time, chip`regs, chip`writes, chip`dc
    ensures chip.dc == old(chip.dc)
    ensures chip.FaultFree() ==> status == Ok && chip.regs == old(chip.regs)[0x76 := Vga1Code(gain)]
  {
    var g := gain;
    if g > VGA1_MAX {
      g := VGA1_MAX;
    } else if g < VGA1_MIN {
      g := VGA1_MIN;
    }
    status := chip.Write(0x76, Val2Code(g));
  }

  method Vga2SetGain(chip: Chip, gain: int) returns (status: Status)
    modifies chip`time, chip`regs, chip`writes, chip`dc
    ensures chip.dc == old(chip.dc)
    ensures chip.FaultFree() ==> status == Ok && chip.regs == old(chip.regs)[0x65 := Vga2Code(gain)]
  {
    var g := gain;
    if g > VGA2_MAX {
      g := VGA2_MAX;
    } else if g < VGA2_MIN {
      g := VGA2_MIN;
    }
    status := chip.Write(0x65, g / 3);
  }

  // ----- The calibration

  /** One run of a block's calibration state machine; the block's value and status registers are
      measurements. */
  method DcCalLoop(chip: Chip, base: int, calAddress: int, cntval: byte) returns (status: Status, regval: byte)
    requires base in {0x00, 0x30, 0x50, 0x60} && 0 <= calAddress < 8
    modifies chip`time, chip`regs, chip`writes, chip`lastSensed, chip`dc
    ensures chip.FaultFree() ==>
              && status != Io && SameExcept(old(chip.regs), chip.regs, {base + 2, base + 3})
              && Addressed(chip.regs, base, calAddress, cntval)
    ensures status == Ok ==> regval == chip.lastSensed % 64
    ensures chip.FaultFree() ==>
              if status == Ok then chip.dc.runs == old(chip.dc.runs) + [CalRun(base, calAddress, cntval, regval)]
              else status == Unexpected && chip.dc.runs == old(chip.dc.runs) && TimedOut(chip.dc, base)
  {
    regval := 0;
    status := StartCal(chip, base, calAddress, cntval);
    if status != Ok { return; }
    status, regval := PollDone(chip, base);
  }

  /** The control value with its address field, bits [2:0], replaced. */
  function WithAddress(v: byte, calAddress: int): (r: byte)
    requires 0 <= calAddress < 8
    ensures r % 8 == calAddress
  {
    v - v % 8 + calAddress
  }

  /** Select the submodule, latch DC_CNTVAL and toggle DC_START_CLBR. */
  method StartCal(chip: Chip, base: int, calAddress: int, cntval: byte) returns (status: Status)
    requires base in {0x00, 0x30, 0x50, 0x60} && 0 <= calAddress < 8
    modifies chip`time, chip`regs, chip`writes, chip`lastSensed, chip`dc
    ensures chip.lastSensed == old(chip.lastSensed)
    ensures chip.FaultFree() ==>
              && status == Ok && SameExcept(old(chip.regs), chip.regs, {base + 2, base + 3})
              && Addressed(chip.regs, base, calAddress, cntval)
              && Begun(old(chip.dc), chip.dc, base, calAddress, cntval)
  {
    var val;
    status, val := Select(chip, base, calAddress, cntval);
    if status != Ok { return; }
    status := LatchAndStart(chip, base, val);
  }

  method Select(chip: Chip, base: int, calAddress: int, cntval: byte) returns (status: Status, val: byte)
    requires base in {0x00, 0x30, 0x50, 0x60} && 0 <= calAddress < 8
    modifies chip`time, chip`regs, chip`writes, chip`lastSensed, chip`dc
    ensures chip.lastSensed == old(chip.lastSensed) && val % 8 == calAddress
    ensures chip.FaultFree() ==>
              && status == Ok && SameExcept(old(chip.regs), chip.regs, {base + 2, base + 3})
              && chip.regs[base + 2] == cntval && chip.dc.runs == old(chip.dc.runs)
  {
    status, val := chip.Read(base + 3);
    val := WithAddress(val, calAddress);
    if status != Ok { return; }
    status := chip.Write(base + 3, val);
    if status != Ok { return; }
    status := chip.Write(base + 2, cntval);
  }

  method LatchAndStart(chip: Chip, base: int, v: byte) returns (status: Status)
    requires base in {0x00, 0x30, 0x50, 0x60}
    modifies chip`time, chip`regs, chip`writes, chip`lastSensed, chip`dc
    ensures chip.lastSensed == old(chip.lastSensed)
    ensures chip.FaultFree() ==>
              && status == Ok && SameExcept(old(chip.regs), chip.regs, {base + 3})
              && Addressed(chip.regs, base, v % 8, old(chip.regs[base + 2]))
              && Begun(old(chip.dc), chip.dc, base, v % 8, old(chip.regs[base + 2]))
  {
    var val;
    ghost var t, u, count := chip.dc, v, chip.regs[base + 2];
    status, val := Pulse(chip, base, v, 16);
    if status != Ok { return; }
    if chip.FaultFree() { PulseLatches(t, base, count, u, val); }
    t, u := chip.dc, val;
    status, val := Pulse(chip, base, val, 32);
    if status != Ok { return; }
    if chip.FaultFree() { PulseStarts(t, base, count, u, val); }
  }

  /** Now running, on this submodule and from this count. */
  ghost predicate Begun(t: DcTrace, u: DcTrace, base: int, sub: int, start: byte) {
    u.runs == t.runs && BlockOf(u, base) == DcBlock(start, Running, sub, start, 0)
  }

  lemma PulseLatches(t: DcTrace, base: int, count: byte, v: byte, w: byte)
    requires !HasBit(w, 16)
    ensures var u := Driven(Driven(t, base, count, SetBit(v, 16)), base, count, w);
            u.runs == t.runs && BlockOf(u, base).latched == count
  {
  }

  lemma PulseStarts(t: DcTrace, base: int, count: byte, v: byte, w: byte)
    requires !HasBit(v, 16) && w == ClearBit(SetBit(v, 32), 32) && BlockOf(t, base).latched == count
    ensures Begun(t, Driven(Driven(t, base, count, SetBit(v, 32)), base, count, w), base, v % 8, count)
  {
    StartBit(v);
  }

  lemma StartBit(v: byte)
    requires !HasBit(v, 16)
    ensures HasBit(SetBit(v, 32), 32) && !HasBit(SetBit(v, 32), 16) && SetBit(v, 32) % 8 == v % 8
    ensures var w := ClearBit(SetBit(v, 32), 32); !HasBit(w, 32) && !HasBit(w, 16)
  {
  }

  /** Write the control register with one bit set, then with it clear. */
  method Pulse(chip: Chip, base: int, v: byte, bit: int) returns (status: Status, val: byte)
    requires base in {0x00, 0x30, 0x50, 0x60} && (bit == 16 || bit == 32)
    modifies chip`time, chip`regs, chip`writes, chip`dc
    ensures val == ClearBit(SetBit(v, bit), bit)
    ensures val % 8 == v % 8 && !HasBit(val, bit) && (bit == 32 && !HasBit(v, 16) ==> !HasBit(val, 16))
    ensures chip.FaultFree() ==> status == Ok && chip.regs == old(chip.regs)[base + 3 := val]
    ensures chip.FaultFree() ==>
              var count := chip.regs[base + 2];
              chip.dc == Driven(Driven(old(chip.dc), base, count, SetBit(v, bit)), base, count, val)
  {
    status := chip.Write(base + 3, SetBit(v, bit));
    val := ClearBit(SetBit(v, bit), bit);
    PulseKeeps(v, bit);
    if status != Ok { return; }
    status := chip.Write(base + 3, val);
  }

  lemma PulseKeeps(v: byte, bit: int)
    requires bit == 16 || bit == 32
    ensures var w := ClearBit(SetBit(v, bit), bit);
            w == ClearBit(v, bit) && w % 8 == v % 8 && (bit == 32 && !HasBit(v, 16) ==> !HasBit(w, 16))
  {
  }

  /** The block is addressed to a submodule and its count value is latched, with neither the latch
      nor the start bit left asserted. */
  ghost predicate Addressed(r: Regs, base: int, calAddress: int, cntval: byte)
    requires base in {0x00, 0x30, 0x50, 0x60}
  {
    r[base + 2] == cntval && r[base + 3] % 8 == calAddress && !HasBit(r[base + 3], 16) && !HasBit(r[base + 3], 32)
  }

  /** The run was given up after it had been found unfinished 25 times. */
  ghost predicate TimedOut(t: DcTrace, base: int) {
    BlockOf(t, base).phase == Running && BlockOf(t, base).polls == 25
  }

  method PollDone(chip: Chip, base: int) returns (status: Status, regval: byte)
    requires base in {0x00, 0x30, 0x50, 0x60}
    modifies chip`time, chip`lastSensed, chip`dc
    ensures chip.FaultFree() ==> status != Io
    ensures status == Ok ==> regval == chip.lastSensed % 64
    ensures chip.FaultFree() && BlockOf(old(chip.dc), base).phase == Running && BlockOf(old(chip.dc), base).polls == 0 ==>
              var b := BlockOf(old(chip.dc), base);
              if status == Ok then chip.dc.runs == old(chip.dc.runs) + [CalRun(base, b.sub, b.start, regval)]
              else status == Unexpected && chip.dc.runs == old(chip.dc.runs) && TimedOut(chip.dc, base)
  {
    var done := false;
    var i := 0;
    status, regval := Ok, 0;
    while i < MAX_POLLS && !done
      invariant i <= MAX_POLLS && (done ==> status == Ok ==> regval == chip.lastSensed % 64) && (chip.FaultFree() ==> status == Ok)
      invariant !done ==> status == Ok
      invariant chip.FaultFree() && BlockOf(old(chip.dc), base).phase == Running && BlockOf(old(chip.dc), base).polls == 0 ==>
                  var b := BlockOf(old(chip.dc), base);
                  if done then chip.dc.runs == old(chip.dc.runs) + [CalRun(base, b.sub, b.start, regval)]
                  else chip.dc.runs == old(chip.dc.runs) && BlockOf(chip.dc, base) == b.(polls := i)
    {
      var val;
      status, val := chip.Read(base + 1);
      if status != Ok { return; }
      if val / 2 % 2 == 0 {
        done := true;
        status, regval := chip.Read(base);
        if status == Ok {
          regval := regval % 64;
        }
      }
      i := i + 1;
    }
    if !done {
      status := Unexpected;
    }
  }

  /** The saved state describes the registers r0 at the start. */
  ghost predicate BackedUp(st: CalState, r0: Regs, m: CalModule) {
    && st.clkEn == r0[0x09]
    && (IsRx(m) ==>
          && st.reg72 == r0[0x72] && st.lnaGain == r0[0x75] / 64 && st.lnaGain > 0
          && st.vga1Gain == Vga1Gain(r0[0x76]) && st.vga2Gain == Vga2Gain(r0[0x65]))
  }

  /** While calibrating: only working and borrowed registers differ, and of 0x75 only the gain field. */
  ghost predicate Working(r0: Regs, r: Regs, m: CalModule) {
    SameExcept(r0, r, WorkRegs(m) + BorrowedRegs(m)) && r[0x75] % 64 == r0[0x75] % 64
  }

  /** After the calibration: borrowed registers are back and the gains read as before, RXVGA2 exactly
      when its code was at most 10. */
  ghost predicate Restored(r0: Regs, r: Regs, m: CalModule) {
    && SameExcept(r0, r, WorkRegs(m))
    && Vga1Gain(r[0x76]) == Vga1Gain(r0[0x76])
    && (IsRx(m) ==> (r[0x65] == r0[0x65] <==> r0[0x65] <= 10))
  }

  /** The calibration comparators are powered down and RXVGA2 is under normal control. */
  predicate ShutDown(r: Regs, m: CalModule) {
    match m
    case RxLpf => r[0x5f] >= 128
    case RxVga2 => r[0x68] == 1 && r[0x64] % 2 == 0 && r[0x6e] >= 192
    case TxLpf => r[0x3f] >= 128 && r[0x36] < 128
    case _ => true
  }

  predicate GainsInRange(st: CalState) {
    VGA1_MIN <= st.vga1Curr <= VGA1_MAX && VGA2_MIN <= st.vga2Curr <= VGA2_MAX && st.vga2Curr % 3 == 0
  }

  predicate Configured(st: CalState, m: CalModule) {
    m != InvalidModule && st.base == BaseAddr(m) && st.submodules == Submodules(m) && (IsRx(m) ==> GainsInRange(st))
  }

  /** Set up for an attempt at the current gains: clock on, comparator up, and for a receive module
      the LNA disconnected and at its maximum. */
  predicate Prepared(r: Regs, m: CalModule, st: CalState) { ClockOn(r, m, st) && SetUp(r, m, st) }

  /** The module's own calibration clock, bit 5, 1, 3 or 4 of CLK_EN, is on besides the others. */
  predicate ClockOn(r: Regs, m: CalModule, st: CalState) {
    match m
    case LpfTuning => r[0x09] == SetBit(st.clkEn, 32)
    case TxLpf => r[0x09] == SetBit(st.clkEn, 2)
    case RxLpf => r[0x09] == SetBit(st.clkEn, 8)
    case RxVga2 => r[0x09] == SetBit(st.clkEn, 16)
    case InvalidModule => false
  }

  predicate SetUp(r: Regs, m: CalModule, st: CalState) {
    && (IsRx(m) ==>
          && r[0x72] == st.reg72 % 128 && r[0x75] / 64 == 3
          && r[0x76] == Vga1Code(st.vga1Curr) && r[0x65] == Vga2Code(st.vga2Curr))
    && match m
       case RxLpf => r[0x5f] < 128
       case RxVga2 => r[0x6e] < 64
       case TxLpf => r[0x36] >= 128 && r[0x3f] < 128
       case _ => true
  }

  /** The gain path of RXVGA2 that a submodule is calibrated in: the RC reference, then the first
      stage (1 and 2) and the second stage (3 and 4) under direct control. */
  predicate Stage(r: Regs, m: CalModule, sub: nat) {
    m == RxVga2 ==>
      if sub == 0 then r[0x64] % 2 == 0 && r[0x68] == 0x01
      else r[0x64] % 2 == 1 && r[0x68] == if sub <= 2 then 0x06 else 0x60
  }

  method Backup(chip: Chip, m: CalModule) returns (status: Status, st: CalState)
    modifies chip`time, chip`lastSensed, chip`dc
    ensures chip.dc == old(chip.dc)
    ensures chip.FaultFree() ==> status == if IsRx(m) && chip.regs[0x75] / 64 == 0 then Inval else Ok
    ensures chip.FaultFree() && status == Ok ==> BackedUp(st, chip.regs, m)
  {
    st := CalState(0, 0, 0, 0, 0, 0, 0, 0, 0);
    var clk;
    status, clk := chip.Read(0x09);
    if status != Ok { return; }
    st := st.(clkEn := clk);
    if IsRx(m) {
      var r72, lna, code;
      status, r72 := chip.Read(0x72);
      if status != Ok { return; }
      status, lna := LnaGetGain(chip);
      if status != Ok { return; }
      status, code := chip.Read(0x76);
      if status != Ok { return; }
      st := st.(reg72 := r72, lnaGain := lna, vga1Gain := Vga1Gain(code));
      status, code := chip.Read(0x65);
      if status != Ok { return; }
      st := st.(vga2Gain := Vga2Gain(code));
    }
  }

  method InitRx(chip: Chip, m: CalModule, st: CalState) returns (status: Status)
    requires IsRx(m) && st.vga1Curr == VGA1_MAX && st.vga2Curr == VGA2_MAX
    modifies chip`time, chip`regs, chip`writes, chip`lastSensed, chip`dc
    ensures chip.dc == old(chip.dc)
    ensures chip.FaultFree() ==> status == Ok && Working(old(chip.regs), chip.regs, m)
    ensures chip.FaultFree() ==> SetUp(chip.regs, m, st) && chip.regs[0x09] == old(chip.regs[0x09])
  {
    if m == RxVga2 {
      status := LmsClear(chip, 0x6e, TopTwo);
    } else {
      status := LmsClear(chip, 0x5f, TopBit);
    }
    if status != Ok { return; }
    status := chip.Write(0x72, st.reg72 % 128);
    if status != Ok { return; }
    status := LnaSetGain(chip, LNA_MAX);
    if status != Ok { return; }
    status := Vga1SetGain(chip, VGA1_MAX);
    if status != Ok { return; }
    status := Vga2SetGain(chip, VGA2_MAX);
  }

  method Init(chip: Chip, m: CalModule, st0: CalState) returns (status: Status, st: CalState)
    modifies chip`time, chip`regs, chip`writes, chip`lastSensed, chip`dc
    ensures chip.dc == old(chip.dc)
    ensures st == st0.(base := st.base, submodules := st.submodules, vga1Curr := st.vga1Curr, vga2Curr := st.vga2Curr)
    ensures status == Ok ==> Configured(st, m) && (IsRx(m) ==> st.vga1Curr == VGA1_MAX && st.vga2Curr == VGA2_MAX)
    ensures m == InvalidModule ==> status == Inval
    ensures chip.FaultFree() ==>
              Working(old(chip.regs), chip.regs, m) && (m != InvalidModule ==> status == Ok && Prepared(chip.regs, m, st))
  {
    st := st0;
    var clock;
    match m {
      case LpfTuning =>
        clock, st := 32, st.(base := 0x00, submodules := 1);
      case TxLpf =>
        clock, st := 2, st.(base := 0x30, submodules := 2);
      case RxLpf =>
        clock, st := 8, st.(base := 0x50, submodules := 2);
      case RxVga2 =>
        clock, st := 16, st.(base := 0x60, submodules := 5);
      case InvalidModule =>
        return Inval, st;
    }
    st := st.(vga1Curr := VGA1_MAX, vga2Curr := VGA2_MAX);
    status := chip.Write(0x09, SetBit(st.clkEn, clock));
    if status != Ok { return; }
    if IsRx(m) {
      status := InitRx(chip, m, st);
    } else if m == TxLpf {
      status := LmsSet(chip, 0x36, TopBit);
      if status != Ok { return; }
      status := LmsClear(chip, 0x3f, TopBit);
    }
  }

  /** RXVGA2 stages need their own gain path set up before submodules 0, 1 and 3. */
  method PrepareVga2(chip: Chip, sub: nat) returns (status: Status)
    requires sub < 5
    modifies chip`time, chip`regs, chip`writes, chip`lastSensed, chip`dc
    ensures chip.dc == old(chip.dc)
    ensures chip.FaultFree() ==> status == Ok && SameExcept(old(chip.regs), chip.regs, {0x64, 0x68})
    ensures chip.FaultFree() && (sub > 0 ==> Stage(old(chip.regs), RxVga2, sub - 1)) ==> Stage(chip.regs, RxVga2, sub)
  {
    status := Ok;
    if sub == 0 {
      status := LmsClear(chip, 0x64, LowBit);
      if status != Ok { return; }
      status := chip.Write(0x68, 0x01);
    } else if sub == 1 {
      status := LmsSet(chip, 0x64, LowBit);
      if status != Ok { return; }
      status := chip.Write(0x68, 0x06);
    } else if sub == 3 {
      status := chip.Write(0x68, 0x60);
    }
  }

  /** A DC level, bits [5:0], replaced. */
  function WithLevel(v: byte, level: byte): (w: byte)
    requires level < 64
    ensures w % 64 == level && w / 64 == v / 64
  {
    v - v % 64 + level
  }

  /** The LPF tuning result goes to the DC levels of both filters. */
  method StoreLpfLevel(chip: Chip, regval: byte) returns (status: Status)
    requires regval < 64
    modifies chip`time, chip`regs, chip`writes, chip`lastSensed, chip`dc
    ensures chip.dc == old(chip.dc)
    ensures chip.lastSensed == old(chip.lastSensed)
    ensures chip.FaultFree() ==>
              && status == Ok && SameExcept(old(chip.regs), chip.regs, {0x35, 0x55})
              && chip.regs[0x35] % 64 == chip.regs[0x55] % 64 == regval
  {
    var val;
    status, val := chip.Read(0x35);
    if status == Ok {
      status := chip.Write(0x35, WithLevel(val, regval));
    }
    if status != Ok { return; }
    status, val := chip.Read(0x55);
    if status == Ok {
      status := chip.Write(0x55, WithLevel(val, regval));
    }
  }

  /** The block was run for this submodule and its last value is not the count it was started from,
      which is how a stuck calibration shows. */
  ghost predicate Accepted(r: Regs, reading: byte, m: CalModule, sub: nat)
    requires m != InvalidModule
  {
    var base := BaseAddr(m);
    && (r[base + 2] == 31 || r[base + 2] == 0)
    && Addressed(r, base, sub, r[base + 2])
    && reading % 64 != r[base + 2]
    && (m == LpfTuning ==> r[0x35] % 64 == r[0x55] % 64 == reading % 64)
  }

  /** Both runs of the block came back stuck. */
  ghost predicate Stuck(r: Regs, reading: byte, m: CalModule, sub: nat)
    requires m != InvalidModule
  {
    Addressed(r, BaseAddr(m), sub, 0) && reading % 64 == 0
  }

  // ----- The runs of the block that a calibration is made of

  /** A submodule was run from 31, and again from 0 exactly if it came back with 31, and its last
      value is not the count it was started from. */
  predicate AcceptedRuns(base: int, sub: int, rs: seq<CalRun>) {
    || (|rs| == 1 && rs[0] == CalRun(base, sub, 31, rs[0].value) && rs[0].value != 31)
    || (|rs| == 2 && rs[0] == CalRun(base, sub, 31, 31) && rs[1] == CalRun(base, sub, 0, rs[1].value) && rs[1].value != 0)
  }

  predicate StuckRuns(base: int, sub: int, rs: seq<CalRun>) {
    rs == [CalRun(base, sub, 31, 31), CalRun(base, sub, 0, 0)]
  }

  predicate UnfinishedRuns(base: int, sub: int, rs: seq<CalRun>) {
    rs == [] || rs == [CalRun(base, sub, 31, 31)]
  }

  /** A pass over the submodules: the runs of each accepted one in turn, and those of the one at which
      it stopped. */
  datatype Pass = Pass(accepted: seq<seq<CalRun>>, tail: seq<CalRun>)

  function Flat(parts: seq<seq<CalRun>>): seq<CalRun> {
    if parts == [] then [] else Flat(parts[..|parts| - 1]) + parts[|parts| - 1]
  }

  /** All the runs of some passes, in order. */
  function RunsOf(passes: seq<Pass>): seq<CalRun> {
    if passes == [] then []
    else RunsOf(passes[..|passes| - 1]) + (Flat(passes[|passes| - 1].accepted) + passes[|passes| - 1].tail)
  }

  predicate InOrder(base: int, parts: seq<seq<CalRun>>) {
    forall i :: 0 <= i < |parts| ==> AcceptedRuns(base, i, parts[i])
  }

  predicate ConvergedPass(base: int, total: nat, p: Pass) {
    InOrder(base, p.accepted) && |p.accepted| == total && p.tail == []
  }

  /** A pass that met a stuck submodule. */
  predicate StuckPass(base: int, total: nat, p: Pass) {
    InOrder(base, p.accepted) && |p.accepted| < total && StuckRuns(base, |p.accepted|, p.tail)
  }

  /** A pass in which a run never finished. */
  predicate UnfinishedPass(base: int, total: nat, p: Pass) {
    InOrder(base, p.accepted) && |p.accepted| < total && UnfinishedRuns(base, |p.accepted|, p.tail)
  }

  predicate AllStuck(base: int, total: nat, passes: seq<Pass>) {
    forall i :: 0 <= i < |passes| ==> StuckPass(base, total, passes[i])
  }

  /** Stuck passes, and a last one that converged. */
  predicate Converges(base: int, total: nat, passes: seq<Pass>) {
    && passes != [] && AllStuck(base, total, passes[..|passes| - 1])
    && ConvergedPass(base, total, passes[|passes| - 1])
  }

  /** Stuck passes, and a last one that did not finish. */
  predicate GivesUp(base: int, total: nat, passes: seq<Pass>) {
    && passes != [] && AllStuck(base, total, passes[..|passes| - 1])
    && UnfinishedPass(base, total, passes[|passes| - 1])
  }

  method CalSubmodule(chip: Chip, m: CalModule, sub: nat, st: CalState)
    returns (status: Status, converged: bool, ghost rs: seq<CalRun>)
    requires Configured(st, m) && sub < Submodules(m)
    modifies chip`time, chip`regs, chip`writes, chip`lastSensed, chip`dc
    ensures chip.FaultFree() ==> SameExcept(old(chip.regs), chip.regs, CalRegs(m))
    ensures chip.FaultFree() && (sub > 0 ==> Stage(old(chip.regs), m, sub - 1)) ==> Stage(chip.regs, m, sub)
    ensures chip.FaultFree() && status == Ok ==> if converged then Accepted(chip.regs, chip.lastSensed, m, sub) else Stuck(chip.regs, chip.lastSensed, m, sub)
    ensures converged ==> status == Ok
    ensures chip.FaultFree() ==>
              && chip.dc.runs == old(chip.dc.runs) + rs
              && if converged then AcceptedRuns(BaseAddr(m), sub, rs)
                 else if status == Ok then StuckRuns(BaseAddr(m), sub, rs)
                 else status == Unexpected && TimedOut(chip.dc, BaseAddr(m)) && UnfinishedRuns(BaseAddr(m), sub, rs)
  {
    var regval;
    converged, rs := false, [];
    if m == RxVga2 {
      status := PrepareVga2(chip, sub);
      if status != Ok { return; }
    }
    status, regval := DcCalLoop(chip, st.base, sub, 31);
    if status != Ok { return; }
    rs := [CalRun(st.base, sub, 31, regval)];
    if regval == 31 {
      status, regval := DcCalLoop(chip, st.base, sub, 0);
      if status != Ok { return; }
      rs := rs + [CalRun(st.base, sub, 0, regval)];
      if regval == 0 { return; }
    }
    if m == LpfTuning {
      status := StoreLpfLevel(chip, regval);
      if status != Ok { return; }
    }
    status, converged := Ok, true;
  }

  method CalAllSubmodules(chip: Chip, m: CalModule, st: CalState)
    returns (status: Status, converged: bool, ghost pass: Pass)
    requires Configured(st, m)
    modifies chip`time, chip`regs, chip`writes, chip`lastSensed, chip`dc
    ensures converged ==> status == Ok
    ensures chip.FaultFree() ==> SameExcept(old(chip.regs), chip.regs, CalRegs(m))
    ensures chip.FaultFree() && converged ==>
              Accepted(chip.regs, chip.lastSensed, m, Submodules(m) - 1) && Stage(chip.regs, m, Submodules(m) - 1)
    ensures chip.FaultFree() && status == Ok && !converged ==>
              exists i :: 0 <= i < Submodules(m) && Stuck(chip.regs, chip.lastSensed, m, i) && Stage(chip.regs, m, i)
    ensures chip.FaultFree() ==>
              && chip.dc.runs == old(chip.dc.runs) + (Flat(pass.accepted) + pass.tail)
              && PassEnds(BaseAddr(m), Submodules(m), status, converged, pass)
              && (status != Ok ==> TimedOut(chip.dc, BaseAddr(m)))
  {
    status, converged, pass := Ok, true, Pass([], []);
    var i := 0;
    ghost var r0, runs0 := chip.regs, chip.dc.runs;
    while i < st.submodules && converged && status == Ok
      invariant 0 <= i <= st.submodules && (converged ==> status == Ok)
      invariant i == 0 ==> converged
      invariant chip.FaultFree() ==> PassRegs(r0, chip.regs, chip.lastSensed, m, i, status, converged)
      invariant chip.FaultFree() ==> chip.dc.runs == runs0 + (Flat(pass.accepted) + pass.tail)
      invariant chip.FaultFree() && converged ==> InOrder(BaseAddr(m), pass.accepted) && |pass.accepted| == i && pass.tail == []
      invariant chip.FaultFree() && !converged ==> PassEnds(BaseAddr(m), Submodules(m), status, converged, pass)
      invariant chip.FaultFree() && status != Ok ==> TimedOut(chip.dc, BaseAddr(m))
    {
      status, converged, pass := NextSubmodule(chip, m, i, st, r0, pass.accepted);
      i := i + 1;
    }
  }

  predicate PassEnds(base: int, total: nat, status: Status, converged: bool, p: Pass) {
    if converged then ConvergedPass(base, total, p)
    else if status == Ok then StuckPass(base, total, p)
    else status == Unexpected && UnfinishedPass(base, total, p)
  }

  /** What the registers show after i submodules of a pass. */
  ghost predicate PassRegs(r0: Regs, r: Regs, reading: byte, m: CalModule, i: nat, status: Status, converged: bool) {
    && SameExcept(r0, r, CalRegs(m))
    && (i > 0 ==>
          && Stage(r, m, i - 1)
          && (m != InvalidModule && status == Ok ==> if converged then Accepted(r, reading, m, i - 1) else Stuck(r, reading, m, i - 1)))
  }

  method NextSubmodule(chip: Chip, m: CalModule, i: nat, st: CalState, ghost r0: Regs, ghost done: seq<seq<CalRun>>)
    returns (status: Status, converged: bool, ghost pass: Pass)
    requires Configured(st, m) && i < Submodules(m)
    requires chip.FaultFree() ==> PassRegs(r0, chip.regs, chip.lastSensed, m, i, Ok, true) && InOrder(BaseAddr(m), done) && |done| == i
    modifies chip`time, chip`regs, chip`writes, chip`lastSensed, chip`dc
    ensures converged ==> status == Ok
    ensures chip.FaultFree() ==> PassRegs(r0, chip.regs, chip.lastSensed, m, i + 1, status, converged)
    ensures chip.FaultFree() ==> forall runs :: old(chip.dc.runs) == runs + Flat(done) ==> chip.dc.runs == runs + (Flat(pass.accepted) + pass.tail)
    ensures chip.FaultFree() && converged ==> InOrder(BaseAddr(m), pass.accepted) && |pass.accepted| == i + 1 && pass.tail == []
    ensures chip.FaultFree() && !converged ==> PassEnds(BaseAddr(m), Submodules(m), status, converged, pass)
    ensures chip.FaultFree() && status != Ok ==> TimedOut(chip.dc, BaseAddr(m))
  {
    ghost var part, r := [], chip.regs;
    status, converged, part := CalSubmodule(chip, m, i, st);
    pass := if converged then Pass(done + [part], []) else Pass(done, part);
    if chip.FaultFree() {
      SameThrough(r0, r, chip.regs, CalRegs(m));
      FlatNext(done, part);
    }
  }

  lemma FlatNext(done: seq<seq<CalRun>>, part: seq<CalRun>)
    ensures Flat(done + [part]) == Flat(done) + part
  {
    assert (done + [part])[..|done|] == done;
  }

  lemma SameThrough(r: Regs, s: Regs, t: Regs, touched: set<int>)
    requires SameExcept(r, s, touched) && SameExcept(s, t, touched)
    ensures SameExcept(r, t, touched)
  {
  }

  /** Lower a gain for the next attempt, or report that there is none left to lower. */
  method RetryAdjustment(chip: Chip, m: CalModule, st0: CalState) returns (status: Status, st: CalState, limit: bool)
    requires Configured(st0, m)
    modifies chip`time, chip`regs, chip`writes, chip`dc
    ensures chip.dc == old(chip.dc)
    ensures Configured(st, m) && st == st0.(vga1Curr := st.vga1Curr, vga2Curr := st.vga2Curr)
    ensures limit <==> RetriesLeft(m, st0.vga1Curr, st0.vga2Curr) == 0
    ensures !limit && st0.vga1Curr > 5 ==> st == st0.(vga1Curr := st0.vga1Curr - 1)
    ensures !limit && st0.vga1Curr == 5 ==> m == RxVga2 && st == st0.(vga2Curr := st0.vga2Curr - 3)
    ensures !limit ==> RetriesLeft(m, st.vga1Curr, st.vga2Curr) == RetriesLeft(m, st0.vga1Curr, st0.vga2Curr) - 1
    ensures chip.FaultFree() ==> status == Ok && SameExcept(old(chip.regs), chip.regs, WorkRegs(m))
    ensures chip.FaultFree() && Prepared(old(chip.regs), m, st0) ==> Prepared(chip.regs, m, st)
  {
    status, st, limit := Ok, st0, false;
    if !IsRx(m) {
      limit := true;
    } else if st.vga1Curr > VGA1_MIN {
      st := st.(vga1Curr := st.vga1Curr - 1);
      status := Vga1SetGain(chip, st.vga1Curr);
    } else if m == RxVga2 && st.vga2Curr > VGA2_MIN {
      st := st.(vga2Curr := st.vga2Curr - 3);
      status := Vga2SetGain(chip, st.vga2Curr);
    } else {
      limit := true;
    }
  }

  method Deinit(chip: Chip, m: CalModule) returns (status: Status)
    modifies chip`time, chip`regs, chip`writes, chip`lastSensed, chip`dc
    ensures chip.dc == old(chip.dc)
    ensures chip.lastSensed == old(chip.lastSensed)
    ensures m == InvalidModule ==> status != Ok
    ensures chip.FaultFree() && m != InvalidModule ==> status == Ok
    ensures chip.FaultFree() ==> SameExcept(old(chip.regs), chip.regs, WorkRegs(m)) && ShutDown(chip.regs, m)
    ensures chip.FaultFree() ==> SameExcept(old(chip.regs), chip.regs, {0x5f, 0x68, 0x64, 0x6e, 0x3f, 0x36})
  {
    status := Ok;
    match m {
      case LpfTuning =>
      case RxLpf =>
        status := LmsSet(chip, 0x5f, TopBit);
      case RxVga2 =>
        status := chip.Write(0x68, 0x01);
        if status != Ok { return; }
        status := LmsClear(chip, 0x64, LowBit);
        if status != Ok { return; }
        status := LmsSet(chip, 0x6e, TopTwo);
      case TxLpf =>
        status := LmsSet(chip, 0x3f, TopBit);
        if status != Ok { return; }
        status := LmsClear(chip, 0x36, TopBit);
      case InvalidModule =>
        status := Inval;
    }
  }

  /** Every write is attempted; the first failure is reported, except that the last one overrides. */
  method Restore(chip: Chip, m: CalModule, st: CalState, ghost r0: Regs) returns (ret: Status)
    modifies chip`time, chip`regs, chip`writes, chip`lastSensed, chip`dc
    ensures chip.dc == old(chip.dc)
    ensures chip.FaultFree() && BackedUp(st, r0, m) && Working(r0, old(chip.regs), m) &&
            (!IsRx(m) ==> Vga1Gain(old(chip.regs[0x76])) == Vga1Gain(r0[0x76])) ==>
              Restored(r0, chip.regs, m)
    ensures chip.lastSensed == old(chip.lastSensed)
    ensures chip.FaultFree() && (IsRx(m) ==> 1 <= st.lnaGain <= 3) ==>
              ret == Ok && SameExcept(old(chip.regs), chip.regs, {0x09, 0x72, 0x75, 0x76, 0x65})
  {
    ret := Ok;
    var status := chip.Write(0x09, st.clkEn);
    if status != Ok { ret := status; }
    if IsRx(m) {
      status := chip.Write(0x72, st.reg72);
      if status != Ok && ret == Ok { ret := status; }
      status := LnaSetGain(chip, st.lnaGain);
      if status != Ok && ret == Ok { ret := status; }
      status := Vga1SetGain(chip, st.vga1Gain);
      if status != Ok && ret == Ok { ret := status; }
      status := Vga2SetGain(chip, st.vga2Gain);
      if status != Ok { ret := status; }
      Vga1RoundTrip(Vga1Gain(r0[0x76]));
      Vga2RoundTrip(r0[0x65]);
      GainField(r0[0x75]);
    }
  }

  /** Attempt n runs one dB of RXVGA1 lower than the one before it, from 30 down to 5, and then three dB
      of RXVGA2 lower. */
  predicate GainsOfAttempt(st: CalState, n: nat) {
    if n <= 26 then st.vga1Curr == 31 - n && st.vga2Curr == 30 else st.vga1Curr == 5 && st.vga2Curr == 30 - 3 * (n - 26)
  }

  predicate AttemptsEnd(base: int, total: nat, status: Status, converged: bool, passes: seq<Pass>) {
    if converged then Converges(base, total, passes)
    else if status == Ok then AllStuck(base, total, passes)
    else status == Unexpected && GivesUp(base, total, passes)
  }

  /** One attempt of the retry loop. */
  method Attempt(chip: Chip, m: CalModule, st: CalState, ghost runs0: seq<CalRun>, ghost was: seq<Pass>)
    returns (status: Status, converged: bool, ghost passes: seq<Pass>)
    requires Configured(st, m)
    requires chip.FaultFree() ==> chip.dc.runs == runs0 + RunsOf(was) && AllStuck(BaseAddr(m), Submodules(m), was)
    modifies chip`time, chip`regs, chip`writes, chip`lastSensed, chip`dc
    ensures converged ==> status == Ok
    ensures |passes| == |was| + 1
    ensures chip.FaultFree() ==> chip.dc.runs == runs0 + RunsOf(passes)
    ensures chip.FaultFree() ==> AttemptsEnd(BaseAddr(m), Submodules(m), status, converged, passes)
    ensures chip.FaultFree() && status != Ok ==> TimedOut(chip.dc, BaseAddr(m))
    ensures chip.FaultFree() ==> SameExcept(old(chip.regs), chip.regs, WorkRegs(m))
    ensures chip.FaultFree() ==> (Prepared(old(chip.regs), m, st) <==> Prepared(chip.regs, m, st))
    ensures chip.FaultFree() && converged ==> Accepted(chip.regs, chip.lastSensed, m, Submodules(m) - 1)
  {
    ghost var before, pass := chip.regs, Pass([], []);
    status, converged, pass := CalAllSubmodules(chip, m, st);
    passes := was + [pass];
    if chip.FaultFree() {
      PreparedKept(before, chip.regs, m, st);
      PassAdded(BaseAddr(m), Submodules(m), status, converged, was, pass);
    }
  }

  lemma PassAdded(base: int, total: nat, status: Status, converged: bool, was: seq<Pass>, pass: Pass)
    requires AllStuck(base, total, was) && PassEnds(base, total, status, converged, pass)
    ensures AttemptsEnd(base, total, status, converged, was + [pass])
    ensures RunsOf(was + [pass]) == RunsOf(was) + (Flat(pass.accepted) + pass.tail)
  {
    assert (was + [pass])[..|was|] == was;
  }

  /** An attempt leaves the set-up alone. */
  lemma PreparedKept(r: Regs, s: Regs, m: CalModule, st: CalState)
    requires SameExcept(r, s, CalRegs(m))
    ensures Prepared(r, m, st) <==> Prepared(s, m, st)
    ensures SameExcept(r, s, WorkRegs(m))
  {
  }

  lemma GainField(v: byte)
    ensures v % 64 + v / 64 * 64 == v
  {
  }

  /** The retry loop: at most MaxAttempts attempts for every sequence of readings, and exactly that
      many when it stops because no gain is left to lower. */
  method CalWithRetries(chip: Chip, m: CalModule, st0: CalState)
    returns (status: Status, attempts: nat, limit: bool, st: CalState, ghost passes: seq<Pass>)
    requires Configured(st0, m) && (IsRx(m) ==> st0.vga1Curr == VGA1_MAX && st0.vga2Curr == VGA2_MAX)
    modifies chip`time, chip`regs, chip`writes, chip`lastSensed, chip`dc
    ensures st == st0.(vga1Curr := st.vga1Curr, vga2Curr := st.vga2Curr)
    ensures 1 <= attempts <= MaxAttempts(m)
    ensures limit ==> attempts == MaxAttempts(m)
    ensures chip.FaultFree() && Prepared(old(chip.regs), m, st0) ==> Prepared(chip.regs, m, st)
    ensures status == Ok ==> attempts + RetriesLeft(m, st.vga1Curr, st.vga2Curr) == MaxAttempts(m)
    ensures status == Ok && IsRx(m) ==> GainsOfAttempt(st, attempts)
    ensures chip.FaultFree() ==> SameExcept(old(chip.regs), chip.regs, WorkRegs(m))
    ensures chip.FaultFree() && status == Ok ==> Accepted(chip.regs, chip.lastSensed, m, Submodules(m) - 1)
    ensures chip.FaultFree() ==> chip.dc.runs == old(chip.dc.runs) + RunsOf(passes) && |passes| == attempts
    ensures chip.FaultFree() ==>
              var base, total := BaseAddr(m), Submodules(m);
              if status == Ok then Converges(base, total, passes)
              else status == Unexpected &&
                   if limit then AllStuck(base, total, passes)
                   else TimedOut(chip.dc, base) && GivesUp(base, total, passes)
  {
    var converged := false;
    st, status, limit, attempts, passes := st0, Ok, false, 0, [];
    ghost var runs0 := chip.dc.runs;
    while !converged && !limit && status == Ok
      invariant Configured(st, m) && st == st0.(vga1Curr := st.vga1Curr, vga2Curr := st.vga2Curr)
      invariant !converged && !limit && status == Ok ==> attempts + 1 + RetriesLeft(m, st.vga1Curr, st.vga2Curr) == MaxAttempts(m)
      invariant attempts <= MaxAttempts(m) && (limit ==> attempts == MaxAttempts(m))
      invariant attempts == 0 ==> !converged && !limit && status == Ok
      invariant RetriesLeft(m, st.vga1Curr, st.vga2Curr) >= 0
      invariant converged ==> attempts + RetriesLeft(m, st.vga1Curr, st.vga2Curr) == MaxAttempts(m)
      invariant IsRx(m) && converged ==> GainsOfAttempt(st, attempts)
      invariant IsRx(m) && !converged && !limit && status == Ok ==> GainsOfAttempt(st, attempts + 1)
      invariant chip.FaultFree() && Prepared(old(chip.regs), m, st0) ==> Prepared(chip.regs, m, st)
      invariant converged ==> status == Ok && (chip.FaultFree() ==> Accepted(chip.regs, chip.lastSensed, m, Submodules(m) - 1))
      invariant chip.FaultFree() ==> SameExcept(old(chip.regs), chip.regs, WorkRegs(m))
      invariant chip.FaultFree() ==> chip.dc.runs == runs0 + RunsOf(passes) && |passes| == attempts
      invariant chip.FaultFree() ==> AttemptsEnd(BaseAddr(m), Submodules(m), status, converged, passes)
      invariant chip.FaultFree() && status != Ok ==> TimedOut(chip.dc, BaseAddr(m))
      invariant limit ==> !converged && (chip.FaultFree() ==> status == Ok)
      decreases MaxAttempts(m) - attempts
    {
      attempts := attempts + 1;
      status, converged, passes := Attempt(chip, m, st, runs0, passes);
      if status == Ok && !converged {
        status, st, limit := RetryAdjustment(chip, m, st);
      }
    }
    if !converged && status == Ok {
      status := Unexpected;
    }
  }

  /** The status of a calibration, by what its block did: success after stuck attempts and one that
      converged; failure after the full number of stuck attempts, or when a run never finished. */
  ghost predicate Explains(base: int, total: nat, most: nat, status: Status, passes: seq<Pass>, t: DcTrace) {
    || (status == Ok && Converges(base, total, passes))
    || (status == Unexpected && |passes| == most && AllStuck(base, total, passes))
    || (status == Unexpected && TimedOut(t, base) && GivesUp(base, total, passes))
  }

  /** `lms_calibrate_dc`. On fault-free transfers, and for every sequence of calibration readings,
      converged or not, the receiver is left as it was found outside the module's own working
      registers; a module whose LNA gain cannot be read back is refused with nothing touched. */
  method CalibrateDc(chip: Chip, m: CalModule) returns (status: Status, attempts: nat, ghost passes: seq<Pass>)
    modifies chip`time, chip`regs, chip`writes, chip`lastSensed, chip`dc
    ensures attempts <= MaxAttempts(m)
    ensures chip.FaultFree() && IsRx(m) && old(chip.regs[0x75]) / 64 == 0 ==>
              status == Inval && chip.regs == old(chip.regs)
    ensures chip.FaultFree() && (IsRx(m) ==> old(chip.regs[0x75]) / 64 != 0) ==>
              && chip.regs[0x09] == old(chip.regs[0x09])
              && chip.regs[0x72] == old(chip.regs[0x72])
              && chip.regs[0x75] == old(chip.regs[0x75])
              && Restored(old(chip.regs), chip.regs, m) && ShutDown(chip.regs, m)
    ensures chip.FaultFree() && status == Ok ==> m != InvalidModule && Accepted(chip.regs, chip.lastSensed, m, Submodules(m) - 1)
    ensures chip.FaultFree() ==> chip.dc.runs == old(chip.dc.runs) + RunsOf(passes) && |passes| == attempts
    ensures chip.FaultFree() && (IsRx(m) ==> old(chip.regs[0x75]) / 64 != 0) ==>
              match m
              case LpfTuning => Explains(0x00, 1, 1, status, passes, chip.dc)
              case TxLpf => Explains(0x30, 2, 1, status, passes, chip.dc)
              case RxLpf => Explains(0x50, 2, 26, status, passes, chip.dc)
              case RxVga2 => Explains(0x60, 5, 36, status, passes, chip.dc)
              case InvalidModule => status == Inval && passes == []
  {
    passes := [];
    attempts := 0;
    ghost var r0 := chip.regs;
    var st, tmp, limit;
    status, st := Backup(chip, m);
    if status != Ok { return; }
    status, st := Init(chip, m, st);
    ghost var r1 := chip.regs;
    if status == Ok {
      status, attempts, limit, st, passes := CalWithRetries(chip, m, st);
    }
    ghost var r2 := chip.regs;
    tmp := Deinit(chip, m);
    if status == Ok { status := tmp; }
    ghost var r3 := chip.regs;
    tmp := Restore(chip, m, st, r0);
    if status == Ok { status := tmp; }
    if chip.FaultFree() {
      WorkingThen(r0, r1, r2, m);
      WorkingThen(r0, r2, r3, m);
      ShutDownKept(r3, chip.regs, m);
      BorrowedBack(r0, chip.regs, m);
      if m != InvalidModule { AcceptedKept(r2, r3, chip.regs, chip.lastSensed, m, Submodules(m) - 1); }
    }
  }

  lemma WorkingThen(r0: Regs, r: Regs, s: Regs, m: CalModule)
    requires Working(r0, r, m) && SameExcept(r, s, WorkRegs(m))
    ensures Working(r0, s, m) && (!IsRx(m) ==> Vga1Gain(s[0x76]) == Vga1Gain(r0[0x76]))
  {
    assert 0x75 !in WorkRegs(m);
    if !IsRx(m) { assert 0x76 !in WorkRegs(m) + BorrowedRegs(m); }
  }

  lemma ShutDownKept(r: Regs, s: Regs, m: CalModule)
    requires SameExcept(r, s, {0x09, 0x72, 0x75, 0x76, 0x65})
    ensures ShutDown(r, m) <==> ShutDown(s, m)
  {
  }

  lemma AcceptedKept(r: Regs, s: Regs, t: Regs, reading: byte, m: CalModule, sub: nat)
    requires m != InvalidModule
    requires SameExcept(r, s, {0x5f, 0x68, 0x64, 0x6e, 0x3f, 0x36}) && SameExcept(s, t, {0x09, 0x72, 0x75, 0x76, 0x65})
    ensures Accepted(r, reading, m, sub) ==> Accepted(t, reading, m, sub)
  {
    var base := BaseAddr(m);
    assert r[base + 2] == s[base + 2] == t[base + 2] && r[base + 3] == s[base + 3] == t[base + 3];
  }

  lemma BorrowedBack(r0: Regs, r: Regs, m: CalModule)
    requires SameExcept(r0, r, WorkRegs(m))
    ensures r[0x09] == r0[0x09] && r[0x72] == r0[0x72] && r[0x75] == r0[0x75]
  {
  }
}
