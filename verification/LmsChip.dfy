/** The LMS6002D as the host sees it through LMS_READ and LMS_WRITE: 128 byte registers, a few
    addresses whose value the analog side produces, and transfers that can fail. */
module LmsChip {
  import opened Bytes

  datatype Status = Ok | Io | Unexpected | Inval

  type Regs = r: seq<byte> | |r| == 128 witness seq(128, _ => 0)

  /** A write transfer that was issued: address with the multiwrite bit removed, and value. */
  datatype Transfer = Transfer(addr: int, value: byte)

  /** Registers that report a measurement: the DC calibration value and status of the four
      calibration blocks, and the VTUNE comparators of the two PLLs. */
  predicate Sensed(addr: int) {
    addr in {0x00, 0x01, 0x30, 0x31, 0x50, 0x51, 0x60, 0x61, 0x1a, 0x2a}
  }

  /** Address bit 7 selects the atomic multiwrite and is not part of the register number. */
  function RegIndex(addr: int): (i: int)
    requires 0 <= addr < 256
    ensures 0 <= i < 128
  {
    if addr >= 0x80 then addr - 0x80 else addr
  }

  // ----- What the DC calibration blocks are made to do

  predicate BlockBase(base: int) { base in {0x00, 0x30, 0x50, 0x60} }

  /** The block that a register belongs to, if any. */
  predicate InBlock(addr: int, base: int) { base <= addr <= base + 3 }

  predicate OutsideBlocks(addr: int) {
    !InBlock(addr, 0x00) && !InBlock(addr, 0x30) && !InBlock(addr, 0x50) && !InBlock(addr, 0x60)
  }

  /** A finished calibration: of which block and submodule, from which count, with which value. */
  datatype CalRun = CalRun(base: int, sub: int, start: byte, value: byte)

  datatype Phase = Stopped | Running | Ready

  /** A block: its latched start count, the run it was started on, and how often that run was found
      unfinished. */
  datatype DcBlock = DcBlock(latched: byte, phase: Phase, sub: int, start: byte, polls: nat)

  /** The four blocks, and all the runs whose value was read, in order. */
  datatype DcTrace = DcTrace(blocks: map<int, DcBlock>, runs: seq<CalRun>)

  ghost function BlockOf(t: DcTrace, base: int): DcBlock {
    if base in t.blocks then t.blocks[base] else DcBlock(0, Stopped, 0, 0, 0)
  }

  /** A write to a block's control register: bit 4 latches the count in the register before it, bit 5
      starts the submodule in bits [2:0]. */
  ghost function Driven(t: DcTrace, base: int, count: byte, value: byte): DcTrace {
    var b := BlockOf(t, base);
    var latched := if HasBit(value, 16) then b.(latched := count) else b;
    var started := if HasBit(value, 32) then latched.(phase := Running, sub := value % 8, start := latched.latched, polls := 0) else latched;
    t.(blocks := t.blocks[base := started])
  }

  /** A read of a block's status: bit 1 is low once the run is finished. */
  ghost function Polled(t: DcTrace, base: int, value: byte): DcTrace {
    var b := BlockOf(t, base);
    if b.phase != Running then t
    else t.(blocks := t.blocks[base := if HasBit(value, 2) then b.(polls := b.polls + 1) else b.(phase := Ready)])
  }

  /** A read of a block's value ends a finished run. */
  ghost function Sampled(t: DcTrace, base: int, value: byte): DcTrace {
    var b := BlockOf(t, base);
    if b.phase != Ready then t
    else DcTrace(t.blocks[base := b.(phase := Stopped)], t.runs + [CalRun(base, b.sub, b.start, value % 64)])
  }

  ghost function AfterWrite(t: DcTrace, r: Regs, addr: int, value: byte): DcTrace {
    if addr in {0x03, 0x33, 0x53, 0x63} then Driven(t, addr - 3, r[addr - 1], value) else t
  }

  ghost function AfterRead(t: DcTrace, addr: int, value: byte): DcTrace {
    if addr in {0x01, 0x31, 0x51, 0x61} then Polled(t, addr - 1, value)
    else if addr in {0x00, 0x30, 0x50, 0x60} then Sampled(t, addr, value)
    else t
  }

  class Chip {
    /** Does transfer number t fail? */
    const fault: nat -> bool
    /** Does a failing write number t reach the register all the same? */
    const lands: nat -> bool
    /** What a sensed register reports to transfer number t, given the registers then. */
    const sense: (nat, int, Regs) -> byte

    var regs: Regs
    var time: nat
    ghost var writes: seq<Transfer>
    ghost var lastSensed: byte
    ghost var dc: DcTrace

    constructor (initial: Regs, fault: nat -> bool, lands: nat -> bool, sense: (nat, int, Regs) -> byte)
      ensures regs == initial && time == 0 && writes == []
      ensures this.fault == fault && this.lands == lands && this.sense == sense
    {
      this.fault, this.lands, this.sense := fault, lands, sense;
      regs, time := initial, 0;
      writes, lastSensed, dc := [], 0, DcTrace(map[], []);
    }

    function Sense(t: nat, addr: int, r: Regs): byte {
      sense(t, addr, r)
    }

    ghost predicate FaultFree() {
      forall t: nat :: !fault(t)
    }

    method Read(addr: int) returns (status: Status, value: byte)
      requires 0 <= addr < 256
      modifies `time, `lastSensed, `dc
      ensures time == old(time) + 1
      ensures status == if fault(old(time)) then Io else Ok
      ensures status == Ok && Sensed(RegIndex(addr)) ==>
                value == Sense(old(time), RegIndex(addr), regs) == lastSensed
      ensures status == Ok && !Sensed(RegIndex(addr)) ==> value == regs[RegIndex(addr)]
      ensures status != Ok || !Sensed(RegIndex(addr)) ==> lastSensed == old(lastSensed)
      ensures dc == if status == Ok then AfterRead(old(dc), RegIndex(addr), value) else old(dc)
    {
      value := regs[RegIndex(addr)];
      status := if fault(time) then Io else Ok;
      if status == Ok && Sensed(RegIndex(addr)) {
        value := Sense(time, RegIndex(addr), regs);
        lastSensed := value;
      }
      if status == Ok {
        dc := AfterRead(dc, RegIndex(addr), value);
      }
      time := time + 1;
    }

    method Write(addr: int, value: byte) returns (status: Status)
      requires 0 <= addr < 256
      modifies `time, `regs, `writes, `dc
      ensures time == old(time) + 1
      ensures status == if fault(old(time)) then Io else Ok
      ensures regs == if !fault(old(time)) || lands(old(time)) then old(regs)[RegIndex(addr) := value] else old(regs)
      ensures writes == old(writes) + [Transfer(RegIndex(addr), value)]
      ensures dc == if !fault(old(time)) || lands(old(time)) then AfterWrite(old(dc), old(regs), RegIndex(addr), value) else old(dc)
    {
      status := if fault(time) then Io else Ok;
      if !fault(time) || lands(time) {
        dc := AfterWrite(dc, regs, RegIndex(addr), value);
        regs := regs[RegIndex(addr) := value];
      }
      writes := writes + [Transfer(RegIndex(addr), value)];
      time := time + 1;
    }
  }
}
