/** `tune_vcocap` and its walkers: find the two edges of the VTUNE NORM window in the 6-bit
    VCOCAP code and settle in the middle of it. */
module VcocapSearch {
  import opened Bytes
  import opened LmsChip

  const VCOCAP_MAX: int := 63
  const MAX_ITERATIONS: int := 20
  const MAX_LOW_HIGH: int := 12
  const MAX_RETRIES: int := 15

  const NORM: int := 0
  const LOW: int := 1
  const HIGH: int := 2

  // ----- What the search is specified against

  /** The comparator a settled VCO shows: HIGH up to h, NORM strictly between, LOW from l on. */
  function Region(v: int, h: int, l: int): (r: int) {
    if v <= h then HIGH else if v < l then NORM else LOW
  }

  predicate Window(h: int, l: int) {
    0 <= h && h + 2 <= l <= VCOCAP_MAX
  }

  predicate PllBase(base: int) {
    base == 0x10 || base == 0x20
  }

  /** What read number t of the comparator shows with registers r: bits [7:6] of base + 10. */
  function Vtune(chip: Chip, t: nat, base: int, r: Regs): int {
    chip.Sense(t, base + 10, r) / 64
  }

  /** VTUNE has settled by every read: the comparator is a function of the VCOCAP field. */
  ghost predicate Settled(chip: Chip, base: int, h: int, l: int)
    requires PllBase(base)
  {
    && chip.FaultFree()
    && forall t: nat, r: Regs :: Vtune(chip, t, base, r) == Region(Cap(r[base + 9]), h, l)
  }

  /** The VCOCAP field of its register, and the two bits above it. */
  function Cap(r: byte): (v: int)
    ensures 0 <= v <= VCOCAP_MAX
  {
    r % 64
  }

  function Above(r: byte): (a: byte)
    ensures CapState(a)
    ensures a + Cap(r) == r
  {
    r - r % 64
  }

  predicate CapState(state: byte) { state % 64 == 0 }

  /** `reg_state | v` for a register state whose low six bits are zero. */
  function CapReg(state: byte, v: int): (r: byte)
    requires CapState(state) && 0 <= v <= VCOCAP_MAX
    ensures Cap(r) == v && Above(r) == state
  {
    state + v
  }

  /** Between two points only the VCOCAP field of one register was written: every value is
      0..63 in the field with the two bits above it kept. */
  ghost predicate OnlyCapWrites(before: seq<Transfer>, after: seq<Transfer>, base: int, state: byte) {
    && before <= after
    && forall i :: |before| <= i < |after| ==>
         after[i].addr == base + 9 && Above(after[i].value) == state
  }

  /** The register file differs at most in the VCOCAP field. */
  ghost predicate OnlyCapChanged(before: Regs, after: Regs, base: int, state: byte)
    requires PllBase(base)
  {
    && after == before[base + 9 := after[base + 9]]
    && (Above(before[base + 9]) == state ==> Above(after[base + 9]) == state)
  }

  /** Steps of the first walk, from the estimate to the edge it looks for. */
  function FirstWalk(est: int, h: int, l: int): int {
    match Region(est, h, l)
    case 2 => h + 1 - est
    case 0 => est - h
    case _ => est - (l - 1)
  }

  // ----- The code

  method GetVtune(chip: Chip, base: int, ghost h: int, ghost l: int) returns (status: Status, vtune: int)
    requires PllBase(base)
    modifies chip`time, chip`lastSensed, chip`dc
    ensures 0 <= vtune <= 3
    ensures chip.FaultFree() ==> status == Ok
    ensures status == Ok ==> vtune == chip.lastSensed / 64
    ensures Settled(chip, base, h, l) ==> vtune == Region(Cap(chip.regs[base + 9]), h, l)
  {
    var v: byte;
    status, v := chip.Read(base + 10);
    vtune := v / 64;
    assert status == Ok ==> vtune == Vtune(chip, old(chip.time), base, chip.regs);
  }

  method WriteVcocap(chip: Chip, base: int, vcocap: int, state: byte) returns (status: Status)
    requires PllBase(base) && CapState(state)
    requires 0 <= vcocap <= VCOCAP_MAX
    modifies chip`time, chip`regs, chip`writes, chip`dc
    ensures OnlyCapWrites(old(chip.writes), chip.writes, base, state)
    ensures OnlyCapChanged(old(chip.regs), chip.regs, base, state)
    ensures chip.FaultFree() ==> status == Ok
    ensures status == Ok ==> chip.regs[base + 9] == CapReg(state, vcocap)
  {
    status := chip.Write(base + 9, CapReg(state, vcocap));
  }

  /** Walk VCOCAP up from a HIGH reading until NORM; report the last HIGH code. */
  method HighToNorm(chip: Chip, base: int, start: int, state: byte, ghost h: int, ghost l: int)
    returns (status: Status, highLimit: int)
    requires PllBase(base) && CapState(state)
    requires 0 <= start <= VCOCAP_MAX
    modifies chip`time, chip`regs, chip`writes, chip`lastSensed, chip`dc
    ensures OnlyCapWrites(old(chip.writes), chip.writes, base, state)
    ensures OnlyCapChanged(old(chip.regs), chip.regs, base, state)
    ensures status == Ok ==> 0 <= highLimit <= VCOCAP_MAX
    ensures Settled(chip, base, h, l) && Window(h, l) && start <= h ==>
                if h + 1 - start <= MAX_ITERATIONS
                then status == Ok && highLimit == h
                else status == Unexpected
  {
    var vcocap := start;
    highLimit := VCOCAP_MAX;
    for i := 0 to MAX_ITERATIONS
      invariant vcocap == start + i <= VCOCAP_MAX
      invariant OnlyCapWrites(old(chip.writes), chip.writes, base, state)
      invariant OnlyCapChanged(old(chip.regs), chip.regs, base, state)
      invariant Settled(chip, base, h, l) && Window(h, l) && start <= h ==> vcocap <= h
    {
      if vcocap >= VCOCAP_MAX {
        return Ok, VCOCAP_MAX;
      }
      vcocap := vcocap + 1;
      status := WriteVcocap(chip, base, vcocap, state);
      if status != Ok { return; }
      var vtune;
      status, vtune := GetVtune(chip, base, h, l);
      if status != Ok { return; }
      if vtune == NORM {
        return Ok, vcocap - 1;
      }
    }
    return Unexpected, highLimit;
  }

  /** Walk VCOCAP down from a NORM reading until HIGH; report that code. */
  method NormToHigh(chip: Chip, base: int, start: int, state: byte, ghost h: int, ghost l: int)
    returns (status: Status, highLimit: int)
    requires PllBase(base) && CapState(state)
    requires 0 <= start <= VCOCAP_MAX
    modifies chip`time, chip`regs, chip`writes, chip`lastSensed, chip`dc
    ensures OnlyCapWrites(old(chip.writes), chip.writes, base, state)
    ensures OnlyCapChanged(old(chip.regs), chip.regs, base, state)
    ensures status == Ok ==> 0 <= highLimit < VCOCAP_MAX
    ensures Settled(chip, base, h, l) && Window(h, l) && h < start < l ==>
                if start - h <= MAX_ITERATIONS
                then status == Ok && highLimit == h
                else status == Unexpected
  {
    var vcocap := start;
    highLimit := 0;
    for i := 0 to MAX_ITERATIONS
      invariant vcocap == start - i >= 0
      invariant OnlyCapWrites(old(chip.writes), chip.writes, base, state)
      invariant OnlyCapChanged(old(chip.regs), chip.regs, base, state)
      invariant Settled(chip, base, h, l) && Window(h, l) && h < start < l ==> h < vcocap
    {
      if vcocap == 0 {
        return Ok, 0;
      }
      vcocap := vcocap - 1;
      status := WriteVcocap(chip, base, vcocap, state);
      if status != Ok { return; }
      var vtune;
      status, vtune := GetVtune(chip, base, h, l);
      if status != Ok { return; }
      if vtune == HIGH {
        return Ok, vcocap;
      }
    }
    return Unexpected, highLimit;
  }

  /** Walk VCOCAP down from a LOW reading until NORM; report the last LOW code. */
  method LowToNorm(chip: Chip, base: int, start: int, state: byte, ghost h: int, ghost l: int)
    returns (status: Status, lowLimit: int)
    requires PllBase(base) && CapState(state)
    requires 0 <= start <= VCOCAP_MAX
    modifies chip`time, chip`regs, chip`writes, chip`lastSensed, chip`dc
    ensures OnlyCapWrites(old(chip.writes), chip.writes, base, state)
    ensures OnlyCapChanged(old(chip.regs), chip.regs, base, state)
    ensures status == Ok ==> 0 <= lowLimit <= VCOCAP_MAX
    ensures Settled(chip, base, h, l) && Window(h, l) && l <= start ==>
                if start - (l - 1) <= MAX_ITERATIONS
                then status == Ok && lowLimit == l
                else status == Unexpected
  {
    var vcocap := start;
    lowLimit := 0;
    for i := 0 to MAX_ITERATIONS
      invariant vcocap == start - i >= 0
      invariant OnlyCapWrites(old(chip.writes), chip.writes, base, state)
      invariant OnlyCapChanged(old(chip.regs), chip.regs, base, state)
      invariant Settled(chip, base, h, l) && Window(h, l) && l <= start ==> l <= vcocap
    {
      if vcocap == 0 {
        return Ok, 0;
      }
      vcocap := vcocap - 1;
      status := WriteVcocap(chip, base, vcocap, state);
      if status != Ok { return; }
      var vtune;
      status, vtune := GetVtune(chip, base, h, l);
      if status != Ok { return; }
      if vtune == NORM {
        return Ok, vcocap + 1;
      }
    }
    return Unexpected, lowLimit;
  }

  /** Poll for the far comparator value, then walk VCOCAP toward the end of its range for it. */
  method WaitForVtune(chip: Chip, base: int, target: int, start: int, state: byte, ghost h: int, ghost l: int)
    returns (status: Status, vcocap: int)
    requires PllBase(base) && CapState(state)
    requires target == HIGH || target == LOW
    requires 0 <= start <= VCOCAP_MAX
    modifies chip`time, chip`regs, chip`writes, chip`lastSensed, chip`dc
    ensures OnlyCapWrites(old(chip.writes), chip.writes, base, state)
    ensures OnlyCapChanged(old(chip.regs), chip.regs, base, state)
    ensures 0 <= vcocap <= VCOCAP_MAX
    ensures Settled(chip, base, h, l) && Window(h, l) && old(chip.regs[base + 9]) == CapReg(state, start) ==>
                && status == Ok
                && (target == LOW ==> vcocap == if start < l then l else start)
                && (target == HIGH ==> vcocap == if start > h then h else start)
  {
    vcocap := start;
    var limit := if target == HIGH then 0 else VCOCAP_MAX;
    var inc := if target == HIGH then -1 else 1;
    var vtune;

    for i := 0 to MAX_RETRIES
      invariant chip.regs == old(chip.regs) && chip.writes == old(chip.writes)
      invariant Settled(chip, base, h, l) && Window(h, l) && old(chip.regs[base + 9]) == CapReg(state, start) && i > 0 ==>
                    Region(start, h, l) != target
    {
      status, vtune := GetVtune(chip, base, h, l);
      if status != Ok { return; }
      if vtune == target { return; }
    }

    while vcocap != limit
      invariant 0 <= vcocap <= VCOCAP_MAX
      invariant OnlyCapWrites(old(chip.writes), chip.writes, base, state)
      invariant OnlyCapChanged(old(chip.regs), chip.regs, base, state)
      invariant if target == LOW then start <= vcocap else vcocap <= start
      invariant Settled(chip, base, h, l) && Window(h, l) && old(chip.regs[base + 9]) == CapReg(state, start) ==>
                    Region(vcocap, h, l) != target
      decreases if target == HIGH then vcocap else VCOCAP_MAX - vcocap
    {
      vcocap := vcocap + inc;
      status := WriteVcocap(chip, base, vcocap, state);
      if status != Ok { return; }
      status, vtune := GetVtune(chip, base, h, l);
      if status != Ok { return; }
      if vtune == target { return; }
    }
    status := Ok;
  }

  /** Read the comparator at the estimate and walk to the edge that reading calls for. The other
      limit keeps its initial value. */
  method FirstEdge(chip: Chip, est: int, base: int, state: byte, ghost h: int, ghost l: int)
    returns (status: Status, vtune: int, highLimit: int, lowLimit: int)
    requires PllBase(base) && CapState(state)
    requires 0 <= est <= VCOCAP_MAX
    modifies chip`time, chip`regs, chip`writes, chip`lastSensed, chip`dc
    ensures OnlyCapWrites(old(chip.writes), chip.writes, base, state)
    ensures OnlyCapChanged(old(chip.regs), chip.regs, base, state)
    ensures status == Ok ==> 0 <= highLimit <= VCOCAP_MAX && 0 <= lowLimit <= VCOCAP_MAX
    ensures Settled(chip, base, h, l) && Window(h, l) && old(chip.regs[base + 9]) == CapReg(state, est) ==>
              && vtune == Region(est, h, l)
              && status == (if FirstWalk(est, h, l) <= MAX_ITERATIONS then Ok else Unexpected)
              && (status == Ok ==> if vtune == LOW then highLimit == VCOCAP_MAX && lowLimit == l else highLimit == h)
  {
    highLimit, lowLimit := VCOCAP_MAX, 0;
    status, vtune := GetVtune(chip, base, h, l);
    if status != Ok { return; }
    if vtune == HIGH {
      status, highLimit := HighToNorm(chip, base, est, state, h, l);
    } else if vtune == NORM {
      status, highLimit := NormToHigh(chip, base, est, state, h, l);
    } else if vtune == LOW {
      status, lowLimit := LowToNorm(chip, base, est, state, h, l);
    }
  }

  /** The HIGH limit is known: force VTUNE to LOW and walk back to NORM from there. */
  method FindLowLimit(chip: Chip, base: int, highLimit: int, state: byte, ghost h: int, ghost l: int)
    returns (status: Status, lowLimit: int)
    requires PllBase(base) && CapState(state)
    requires 0 <= highLimit < VCOCAP_MAX
    modifies chip`time, chip`regs, chip`writes, chip`lastSensed, chip`dc
    ensures OnlyCapWrites(old(chip.writes), chip.writes, base, state)
    ensures OnlyCapChanged(old(chip.regs), chip.regs, base, state)
    ensures status == Ok ==> 0 <= lowLimit <= VCOCAP_MAX
    ensures Settled(chip, base, h, l) && Window(h, l) && highLimit == h ==> status == Ok && lowLimit == l
  {
    var vcocap := if highLimit + MAX_LOW_HIGH < VCOCAP_MAX then highLimit + MAX_LOW_HIGH else VCOCAP_MAX;
    lowLimit := 0;
    status := WriteVcocap(chip, base, vcocap, state);
    if status != Ok { return; }
    status, vcocap := WaitForVtune(chip, base, LOW, vcocap, state, h, l);
    if status == Ok {
      status, lowLimit := LowToNorm(chip, base, vcocap, state, h, l);
    }
  }

  /** The LOW limit is known: force VTUNE to HIGH and walk back to NORM from there. */
  method FindHighLimit(chip: Chip, base: int, lowLimit: int, state: byte, ghost h: int, ghost l: int)
    returns (status: Status, highLimit: int)
    requires PllBase(base) && CapState(state)
    requires 0 <= lowLimit <= VCOCAP_MAX
    modifies chip`time, chip`regs, chip`writes, chip`lastSensed, chip`dc
    ensures OnlyCapWrites(old(chip.writes), chip.writes, base, state)
    ensures OnlyCapChanged(old(chip.regs), chip.regs, base, state)
    ensures status == Ok ==> 0 <= highLimit <= VCOCAP_MAX
    ensures Settled(chip, base, h, l) && Window(h, l) && lowLimit == l ==> status == Ok && highLimit == h
  {
    var vcocap := if lowLimit - MAX_LOW_HIGH > 0 then lowLimit - MAX_LOW_HIGH else 0;
    highLimit := VCOCAP_MAX;
    status := WriteVcocap(chip, base, vcocap, state);
    if status != Ok { return; }
    status, vcocap := WaitForVtune(chip, base, HIGH, vcocap, state, h, l);
    if status == Ok {
      status, highLimit := HighToNorm(chip, base, vcocap, state, h, l);
    }
  }

  /** Program the midpoint of the two limits and check that it reads NORM. */
  method SettleBetween(chip: Chip, base: int, highLimit: int, lowLimit: int, state: byte, ghost h: int, ghost l: int)
    returns (status: Status, result: int)
    requires PllBase(base) && CapState(state)
    requires 0 <= highLimit <= VCOCAP_MAX && 0 <= lowLimit <= VCOCAP_MAX
    modifies chip`time, chip`regs, chip`writes, chip`lastSensed, chip`dc
    ensures OnlyCapWrites(old(chip.writes), chip.writes, base, state)
    ensures OnlyCapChanged(old(chip.regs), chip.regs, base, state)
    ensures status == Ok ==>
              && 0 <= result <= VCOCAP_MAX
              && chip.regs[base + 9] == CapReg(state, result)
              && chip.lastSensed / 64 == NORM
    ensures Settled(chip, base, h, l) && Window(h, l) && highLimit == h && lowLimit == l ==>
              status == Ok && result == h + (l - h) / 2
  {
    var vcocap := highLimit + TruncDiv(lowLimit - highLimit, 2);
    result := 0xff;
    status := WriteVcocap(chip, base, vcocap, state);
    if status != Ok { return; }
    result := vcocap;
    var vtune;
    status, vtune := GetVtune(chip, base, h, l);
    if status != Ok { return; }
    if vtune != NORM {
      status := Unexpected;
    }
  }

  /** The search. The estimate `est` is already in the register.

      For any readings and any transfer failures it terminates, touches only the VCOCAP field,
      and success means that the last VTUNE reading was NORM at the reported code. When VTUNE
      has settled around a window (h, l) it succeeds exactly if the first walk fits in the
      iteration limit, and then lands on the midpoint, strictly inside NORM. */
  method TuneVcocap(chip: Chip, est: int, base: int, state: byte, ghost h: int, ghost l: int)
    returns (status: Status, result: int)
    requires PllBase(base) && CapState(state)
    requires 0 <= est <= VCOCAP_MAX
    modifies chip`time, chip`regs, chip`writes, chip`lastSensed, chip`dc
    ensures OnlyCapWrites(old(chip.writes), chip.writes, base, state)
    ensures OnlyCapChanged(old(chip.regs), chip.regs, base, state)
    ensures status == Ok ==>
              && 0 <= result <= VCOCAP_MAX
              && chip.regs[base + 9] == CapReg(state, result)
              && chip.lastSensed / 64 == NORM
    ensures Settled(chip, base, h, l) && Window(h, l) && old(chip.regs[base + 9]) == CapReg(state, est) ==>
                && (status == Ok <==> FirstWalk(est, h, l) <= 20)
                && (status == Ok ==> result == h + (l - h) / 2 && h < result < l)
                && (status != Ok ==> status == Unexpected)
  {
    var vtune, highLimit, lowLimit;
    result := 0xff;
    status, vtune, highLimit, lowLimit := FirstEdge(chip, est, base, state, h, l);
    if status != Ok { return; }

    if highLimit != VCOCAP_MAX {
      status, lowLimit := FindLowLimit(chip, base, highLimit, state, h, l);
    } else if vtune != LOW && vtune != NORM {
      status := Unexpected;
    } else {
      status, highLimit := FindHighLimit(chip, base, lowLimit, state, h, l);
    }
    if status != Ok { return; }

    status, result := SettleBetween(chip, base, highLimit, lowLimit, state, h, l);
  }
}
