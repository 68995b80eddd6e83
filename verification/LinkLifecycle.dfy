/** The FX3 link lifecycle: which DMA channels exist while the host switches interfaces, resets,
    disconnects and changes loopback, and the TX DMA pause handshake on the sample channel.
    The device is ready (the flash autoload has finished) and SDK calls succeed. */
module LinkLifecycle {

  // ----- DMA channels and the record of what was done to them

  datatype Channel = UtoP | PtoU | UtoUart | UartToU | Config

  datatype Op = Create(ch: Channel, bytes: nat) | Destroy(ch: Channel)

  type Live = map<Channel, nat>

  /** The DMA buffer heap. */
  const HEAP: nat := 229376

  function BytesOf(live: Live, ch: Channel): nat { if ch in live then live[ch] else 0 }

  function InUse(live: Live): nat {
    BytesOf(live, UtoP) + BytesOf(live, PtoU) + BytesOf(live, UtoUart) + BytesOf(live, UartToU) + BytesOf(live, Config)
  }

  /** An observer of every channel operation. `misuse` and `mixed` stay set once a live channel was
      created or a dead one destroyed, or the configuration and sample paths were live together;
      `peak` is the most heap ever in use. */
  datatype Monitor = Monitor(live: Live, misuse: bool, mixed: bool, peak: nat)

  function Observe(m: Monitor, op: Op): Monitor {
    var wrong := if op.Create? then op.ch in m.live else op.ch !in m.live;
    var live := if op.Create? then m.live[op.ch := op.bytes] else m.live - {op.ch};
    Monitor(live, m.misuse || wrong, m.mixed || (Config in live && live.Keys != {Config}),
            if InUse(live) > m.peak then InUse(live) else m.peak)
  }

  predicate Clean(m: Monitor) { !m.misuse && !m.mixed && InUse(m.live) <= m.peak <= HEAP }

  lemma CreateClean(m: Monitor, ch: Channel, bytes: nat)
    requires Clean(m) && ch !in m.live && Config !in m.live && (ch == Config ==> m.live == map[])
    requires InUse(m.live) + bytes <= HEAP
    ensures var n := Observe(m, Create(ch, bytes));
            Clean(n) && n.live == m.live[ch := bytes] && InUse(n.live) == InUse(m.live) + bytes
  {
  }

  lemma DestroyClean(m: Monitor, ch: Channel)
    requires Clean(m) && ch in m.live && (Config in m.live ==> ch == Config)
    ensures var n := Observe(m, Destroy(ch));
            Clean(n) && n.live == m.live - {ch}
  {
    assert InUse(m.live - {ch}) <= InUse(m.live);
  }

  /** Creating the channels of the sample path one after the other. */
  function WithSamplePath(m: Monitor, looped: bool, bytes: nat): Monitor {
    var m1 := Observe(m, Create(UtoP, bytes));
    var m2 := if looped then m1 else Observe(m1, Create(PtoU, bytes));
    Observe(Observe(m2, Create(UtoUart, 160)), Create(UartToU, 160))
  }

  /** The channels and buffer bytes of a running sample path. */
  function SamplePath(looped: bool, bytes: nat): (l: Live)
    ensures l.Keys == RfChannels(looped)
  {
    if looped then map[UtoP := bytes, UtoUart := 160, UartToU := 160]
    else map[UtoP := bytes, PtoU := bytes, UtoUart := 160, UartToU := 160]
  }

  function RfChannels(looped: bool): set<Channel> {
    if looped then {UtoP, UtoUart, UartToU} else {UtoP, PtoU, UtoUart, UartToU}
  }

  lemma SamplePathClean(m: Monitor, looped: bool, bytes: nat)
    requires Clean(m) && m.live == map[] && bytes <= 98304
    ensures var n := WithSamplePath(m, looped, bytes);
            Clean(n) && n.live == SamplePath(looped, bytes)
  {
    CreateClean(m, UtoP, bytes);
    var m1 := Observe(m, Create(UtoP, bytes));
    if !looped { CreateClean(m1, PtoU, bytes); }
    var m2 := if looped then m1 else Observe(m1, Create(PtoU, bytes));
    CreateClean(m2, UtoUart, 160);
    CreateClean(Observe(m2, Create(UtoUart, 160)), UartToU, 160);
  }

  /** Destroying them in the order of the teardown. */
  function WithoutSamplePath(m: Monitor, looped: bool): Monitor {
    var m1 := Observe(m, Destroy(UtoP));
    var m2 := if looped then m1 else Observe(m1, Destroy(PtoU));
    Observe(Observe(m2, Destroy(UartToU)), Destroy(UtoUart))
  }

  lemma TeardownClean(m: Monitor, looped: bool)
    requires Clean(m) && m.live.Keys == RfChannels(looped)
    ensures var n := WithoutSamplePath(m, looped);
            Clean(n) && n.live == map[]
  {
    DestroyClean(m, UtoP);
    var m1 := Observe(m, Destroy(UtoP));
    if !looped { DestroyClean(m1, PtoU); }
    var m2 := if looped then m1 else Observe(m1, Destroy(PtoU));
    DestroyClean(m2, UartToU);
    DestroyClean(Observe(m2, Destroy(UartToU)), UtoUart);
    assert WithoutSamplePath(m, looped).live.Keys == {};
  }

  // ----- The TX DMA pause record

  datatype PauseState = Idle | Pending | Confirmed | Failed

  /** What matters to the pause handshake: the TX channel starts, stops or its endpoint is reset; a
      pause request is taken up; a suspend, or an error or abort, of the TX channel is reported; the
      suspend call itself is refused. */
  datatype Mark = Started | Stopped | EndpointReset | Requested | Suspended | Faulted | Refused

  predicate Boundary(k: Mark) { k == Started || k == EndpointReset || k == Stopped }

  predicate Settles(k: Mark) { k == Suspended || k == Faulted }

  /** The last request is at i, and no boundary came after it. */
  ghost predicate RequestedAt(marks: seq<Mark>, i: int) {
    && 0 <= i < |marks| && marks[i] == Requested
    && forall k :: i < k < |marks| ==> !Boundary(marks[k]) && marks[k] != Requested
  }

  /** The first report on the TX channel after position i is at j. */
  ghost predicate FirstReport(marks: seq<Mark>, i: int, j: int) {
    0 <= i < j < |marks| && Settles(marks[j]) && forall k :: i < k < j ==> !Settles(marks[k])
  }

  ghost predicate Unanswered(marks: seq<Mark>, i: int) {
    0 <= i && forall k :: i < k < |marks| ==> !Settles(marks[k]) && marks[k] != Refused
  }

  ghost predicate ConfirmedBy(marks: seq<Mark>, i: int, j: int) {
    && FirstReport(marks, i, j) && marks[j] == Suspended
    && forall k :: i < k < |marks| ==> marks[k] != Refused
  }

  ghost predicate FailedBy(marks: seq<Mark>, i: int, j: int) {
    || (FirstReport(marks, i, j) && marks[j] == Faulted)
    || (0 <= i < j < |marks| && marks[j] == Refused)
  }

  /** The pause state that a history stands for. Confirmed means that a suspend of the TX channel was
      reported after the request, that the request came after the last start, stop or endpoint reset,
      and that no fault was reported before the suspend. */
  ghost predicate PauseIs(marks: seq<Mark>, p: PauseState) {
    match p
    case Idle => forall i :: !RequestedAt(marks, i)
    case Pending => exists i :: RequestedAt(marks, i) && Unanswered(marks, i)
    case Confirmed => exists i, j :: RequestedAt(marks, i) && ConfirmedBy(marks, i, j)
    case Failed => exists i, j :: RequestedAt(marks, i) && FailedBy(marks, i, j)
  }

  /** A history stands for one pause state only. */
  lemma PauseUnique(marks: seq<Mark>, p: PauseState, q: PauseState)
    requires PauseIs(marks, p) && PauseIs(marks, q)
    ensures p == q
  {
    if p != Idle && q != Idle {
      var i :| RequestedAt(marks, i);
      assert forall k :: RequestedAt(marks, k) ==> k == i;
    }
  }

  /** No request is open after a start, a stop or an endpoint reset. */
  lemma AfterBoundary(marks: seq<Mark>, b: Mark)
    requires Boundary(b)
    ensures PauseIs(marks + [b], Idle)
  {
    assert (marks + [b])[|marks|] == b;
  }

  lemma AfterRequest(marks: seq<Mark>)
    ensures PauseIs(marks + [Requested], Pending)
  {
    assert RequestedAt(marks + [Requested], |marks|);
  }

  lemma StillRequested(marks: seq<Mark>, k: Mark, i: int)
    requires !Boundary(k) && k != Requested
    ensures RequestedAt(marks + [k], i) == RequestedAt(marks, i)
  {
    var more := marks + [k];
    assert more[|marks|] == k;
    if RequestedAt(more, i) {
      assert forall j :: i < j < |marks| ==> marks[j] == more[j];
    }
  }

  lemma StillFirst(marks: seq<Mark>, k: Mark, i: int, j: int)
    requires FirstReport(marks, i, j)
    ensures FirstReport(marks + [k], i, j) && (marks + [k])[j] == marks[j]
  {
  }

  /** A report decides a pending pause and changes nothing else. */
  lemma AfterReport(marks: seq<Mark>, p: PauseState, k: Mark)
    requires PauseIs(marks, p) && Settles(k)
    ensures PauseIs(marks + [k], if p != Pending then p else if k == Suspended then Confirmed else Failed)
  {
    var more := marks + [k];
    forall i ensures RequestedAt(more, i) == RequestedAt(marks, i) { StillRequested(marks, k, i); }
    match p
    case Idle =>
    case Pending =>
      var i :| RequestedAt(marks, i) && Unanswered(marks, i);
      assert FirstReport(more, i, |marks|);
      assert if k == Suspended then ConfirmedBy(more, i, |marks|) else FailedBy(more, i, |marks|);
    case Confirmed =>
      var i, j :| RequestedAt(marks, i) && ConfirmedBy(marks, i, j);
      StillFirst(marks, k, i, j);
      assert ConfirmedBy(more, i, j);
    case Failed =>
      var i, j :| RequestedAt(marks, i) && FailedBy(marks, i, j);
      if FirstReport(marks, i, j) { StillFirst(marks, k, i, j); }
      assert FailedBy(more, i, j);
  }

  /** A refused suspend call fails the pause, whatever was reported meanwhile. */
  lemma AfterRefusal(marks: seq<Mark>, p: PauseState)
    requires PauseIs(marks, p) && p != Idle
    ensures PauseIs(marks + [Refused], Failed)
  {
    var i :| RequestedAt(marks, i);
    StillRequested(marks, Refused, i);
    assert FailedBy(marks + [Refused], i, |marks|);
  }

  /** A boundary came after the first `from` marks. */
  ghost predicate BoundarySince(marks: seq<Mark>, from: nat) {
    exists k :: from <= k < |marks| && Boundary(marks[k])
  }

  /** What a pause state may do between two histories: a failure stays until a boundary. */
  ghost predicate FailureKept(before: seq<Mark>, p: PauseState, after: seq<Mark>, q: PauseState) {
    before <= after && (p == Failed ==> q == Failed || BoundarySince(after, |before|))
  }

  lemma FailureKeptThrough(m0: seq<Mark>, p0: PauseState, m1: seq<Mark>, p1: PauseState, m2: seq<Mark>, p2: PauseState)
    requires FailureKept(m0, p0, m1, p1) && FailureKept(m1, p1, m2, p2)
    ensures FailureKept(m0, p0, m2, p2)
  {
    if p0 == Failed && p1 != Failed {
      var k :| |m0| <= k < |m1| && Boundary(m1[k]);
      assert m2[k] == m1[k];
    }
  }

  // ----- Inputs

  datatype Speed = FullSpeed | HighSpeed | SuperSpeed | NotConnected

  datatype Endpoint = SampleProducer | SampleConsumer | UartProducer | UartConsumer | OtherEndpoint

  /** A DMA callback: the channel it names and the event bits it carries. */
  datatype DmaEvent = DmaEvent(handle: Channel, suspended: bool, failed: bool)

  datatype Event =
    | SetInterface(interface: int, alt: int, speed: Speed)
    | UsbReset
    | Disconnect
    | JumpToBootloader
    | SetLoopback(value: int)
    | RfTx(enable: bool, gpioOk: bool)
    | HaltEndpoint(endpoint: Endpoint)
    | PauseTx(wValue: int, wIndex: int, wLength: int, suspendOk: bool, during: seq<DmaEvent>)
    | Dma(event: DmaEvent)

  const IF_NULL: int := 0
  const IF_RF_LINK: int := 1
  const IF_SPI_FLASH: int := 2
  const IF_CONFIG: int := 3

  datatype AppMode = NoConfig | RfMode | ConfigMode

  function PacketSize(s: Speed): (n: nat)
    ensures n in {64, 512, 1024}
  {
    match s
    case FullSpeed => 64
    case HighSpeed => 512
    case SuperSpeed => 1024
    case NotConnected => 1024
  }

  /** Twelve buffers of eight packets: at super speed two such channels and the UART bridge leave less
      than 32 KB of the heap. */
  lemma SampleBufferBytes()
    ensures 12 * (PacketSize(FullSpeed) * 8) == 6144 && 12 * (PacketSize(HighSpeed) * 8) == 49152
    ensures 12 * (PacketSize(SuperSpeed) * 8) == 98304
    ensures 0 < HEAP - InUse(SamplePath(false, 98304)) < 32768
  {
  }

  /** The sample path cannot start without a connection; that case ends in the error handler. */
  predicate Possible(e: Event) { e.SetInterface? && e.alt == IF_RF_LINK ==> e.speed != NotConnected }

  /** An event that delivers no callback for the TX sample channel. */
  predicate NoTxCallback(e: Event) {
    && (e.Dma? ==> e.event.handle != UtoP)
    && (e.PauseTx? ==> forall d :: d in e.during ==> d.handle != UtoP)
  }

  /** What a callback reports about the TX channel. */
  function Reports(d: DmaEvent): seq<Mark> {
    if d.handle != UtoP then []
    else (if d.suspended then [Suspended] else []) + (if d.failed then [Faulted] else [])
  }

  function ReportsOf(ds: seq<DmaEvent>): seq<Mark> {
    if ds == [] then [] else ReportsOf(ds[..|ds| - 1]) + Reports(ds[|ds| - 1])
  }

  lemma Associates(a: seq<Mark>, b: seq<Mark>, c: seq<Mark>, d: seq<Mark>)
    ensures a + b + c == a + (b + c + []) && a + b + c + d == a + (b + c + d)
  {
  }

  class Firmware {
    var linkStarted: bool
    var configStarted: bool
    var loopback: int
    var loopbackWhenCreated: bool
    var appMode: AppMode
    var alt: int
    var pause: PauseState

    ghost var seen: Monitor
    ghost var marks: seq<Mark>

    constructor ()
      ensures Valid() && pause == Idle && seen == Monitor(map[], false, false, 0) && marks == []
    {
      linkStarted, configStarted, loopback, loopbackWhenCreated := false, false, 0, false;
      appMode, alt, pause := NoConfig, IF_NULL, Idle;
      seen, marks := Monitor(map[], false, false, 0), [];
    }

    /** The channels of a running sample path, as they were created. */
    ghost predicate RfLive()
      reads this
    {
      seen.live.Keys == RfChannels(loopbackWhenCreated)
    }

    ghost predicate Idling()
      reads this
    {
      !linkStarted && !configStarted && seen.live == map[] && appMode == NoConfig
    }

    ghost predicate RfRunning()
      reads this
    {
      linkStarted && !configStarted && appMode == RfMode && RfLive()
    }

    ghost predicate ConfigRunning()
      reads this
    {
      !linkStarted && configStarted && appMode == ConfigMode && seen.live.Keys == {Config}
    }

    /** While the sample path runs, the pause state is the one its history stands for. */
    ghost predicate PauseOk()
      reads this
    {
      linkStarted ==> PauseIs(marks, pause)
    }

    ghost predicate Valid()
      reads this
    {
      && Clean(seen) && PauseOk()
      && (alt == IF_RF_LINK ==> RfRunning())
      && (alt == IF_CONFIG ==> ConfigRunning())
      && (alt != IF_RF_LINK && alt != IF_CONFIG ==> Idling())
    }

    /** What each event adds to the history, from the state it finds. */
    ghost function Emits(e: Event): seq<Mark>
      reads this
    {
      match e
      case SetInterface(interface, newAlt, speed) =>
        if interface != 0 || (newAlt == alt && newAlt == IF_SPI_FLASH) then []
        else (if linkStarted then [Stopped] else []) + (if newAlt == IF_RF_LINK then [Started] else [])
      case UsbReset => if linkStarted then [Stopped] else []
      case Disconnect => if linkStarted then [Stopped] else []
      case JumpToBootloader => if linkStarted then [Stopped] else []
      case SetLoopback(_) => []
      case RfTx(enable, gpioOk) => if gpioOk && !enable then [EndpointReset] else []
      case HaltEndpoint(endpoint) => if alt == IF_RF_LINK && endpoint == SampleProducer then [EndpointReset] else []
      case PauseTx(wValue, wIndex, wLength, suspendOk, during) =>
        if alt == IF_RF_LINK && wValue == wIndex == wLength == 0 && !loopbackWhenCreated && pause == Idle
        then [Requested] + ReportsOf(during) + (if suspendOk then [] else [Refused])
        else []
      case Dma(d) => Reports(d)
    }

    ghost function AltAfter(e: Event): int
      reads this
    {
      match e
      case SetInterface(interface, newAlt, _) => if interface == 0 then newAlt else alt
      case UsbReset => IF_NULL
      case Disconnect => IF_NULL
      case JumpToBootloader => IF_NULL
      case _ => alt
    }

    // ----- SDK calls on channels

    method CreateChannel(ch: Channel, bytes: nat)
      modifies `seen
      ensures seen == Observe(old(seen), Create(ch, bytes))
    {
      seen := Observe(seen, Create(ch, bytes));
    }

    method DestroyChannel(ch: Channel)
      modifies `seen
      ensures seen == Observe(old(seen), Destroy(ch))
    {
      seen := Observe(seen, Destroy(ch));
    }

    // ----- The sample path (rf.c)

    method RfStart(speed: Speed)
      requires Clean(seen) && (RfRunning() || Idling()) && speed != NotConnected
      modifies this
      ensures Clean(seen) && RfRunning() && PauseOk()
      ensures alt == old(alt) && loopback == old(loopback) && loopbackWhenCreated == (loopback != 0)
      ensures pause == Idle && marks == old(marks) + (if old(linkStarted) then [Stopped, Started] else [Started])
      ensures seen.live == SamplePath(loopback != 0, 12 * (PacketSize(speed) * 8))
    {
      if linkStarted {
        RfStop();
      }
      var bytes := 12 * (PacketSize(speed) * 8);
      loopbackWhenCreated := loopback != 0;
      pause := Idle;
      CreateSamplePath(loopback != 0, bytes);
      linkStarted := true;
      appMode := RfMode;
      AfterBoundary(marks, Started);
      marks := marks + [Started];
    }

    /** The DMA channels of `NuandRFLinkStart` and `UartBridgeStart`. */
    method CreateSamplePath(looped: bool, bytes: nat)
      modifies `seen
      requires Clean(seen) && seen.live == map[] && bytes <= 98304
      ensures Clean(seen) && seen.live == SamplePath(looped, bytes)
    {
      SamplePathClean(seen, looped, bytes);
      CreateChannel(UtoP, bytes);
      if !looped {
        CreateChannel(PtoU, bytes);
      }
      UartStart();
    }

    method UartStart()
      modifies `seen
      ensures seen == Observe(Observe(old(seen), Create(UtoUart, 160)), Create(UartToU, 160))
    {
      CreateChannel(UtoUart, 16 * 10);
      CreateChannel(UartToU, 16 * 10);
    }

    /** Tears down what was created, not what the current loopback setting would create; a second
        call does nothing. */
    method RfStop()
      requires Clean(seen) && (linkStarted ==> RfRunning())
      modifies this
      ensures Clean(seen)
      ensures old(linkStarted) ==> Idling()
      ensures !old(linkStarted) ==> seen == old(seen) && appMode == old(appMode) && marks == old(marks)
      ensures !linkStarted && configStarted == old(configStarted) && alt == old(alt) && loopback == old(loopback)
      ensures pause == old(pause) && marks == old(marks) + (if old(linkStarted) then [Stopped] else [])
    {
      if !linkStarted {
        return;
      }
      linkStarted := false;
      TeardownClean(seen, loopbackWhenCreated);
      DestroyChannel(UtoP);
      if !loopbackWhenCreated {
        DestroyChannel(PtoU);
      }
      DestroyChannel(UartToU);
      DestroyChannel(UtoUart);
      appMode := NoConfig;
      marks := marks + [Stopped];
    }

    // ----- The FPGA configuration path (fpga.c)

    method ConfigStart(speed: Speed)
      requires Clean(seen) && (ConfigRunning() || Idling())
      modifies this
      ensures Clean(seen) && ConfigRunning() && PauseOk()
      ensures seen.live == map[Config := 2 * (PacketSize(speed) * 4)]
      ensures alt == old(alt) && loopback == old(loopback) && pause == old(pause) && marks == old(marks)
    {
      if configStarted {
        ConfigStop();
      }
      CreateClean(seen, Config, 2 * (PacketSize(speed) * 4));
      CreateChannel(Config, 2 * (PacketSize(speed) * 4));
      configStarted := true;
      appMode := ConfigMode;
    }

    method ConfigStop()
      requires Clean(seen) && (configStarted ==> ConfigRunning())
      modifies this
      ensures Clean(seen)
      ensures old(configStarted) ==> Idling()
      ensures !old(configStarted) ==> seen == old(seen) && appMode == old(appMode)
      ensures !configStarted && linkStarted == old(linkStarted) && alt == old(alt) && loopback == old(loopback)
      ensures pause == old(pause) && marks == old(marks) && loopbackWhenCreated == old(loopbackWhenCreated)
    {
      if !configStarted {
        return;
      }
      configStarted := false;
      DestroyClean(seen, Config);
      DestroyChannel(Config);
      assert seen.live == map[];
      appMode := NoConfig;
    }

    // ----- The TX DMA pause (rf.c)

    /** The DMA callback: the suspend bit is looked at before the error and abort bits. */
    method DmaCallback(d: DmaEvent)
      requires PauseOk()
      modifies `pause, `marks
      ensures PauseOk() && FailureKept(old(marks), old(pause), marks, pause)
      ensures marks == old(marks) + Reports(d)
      ensures pause != old(pause) ==> old(pause) == Pending && d.handle == UtoP
      ensures old(pause) != Idle ==> pause != Idle
    {
      if d.handle == UtoP && d.suspended {
        if linkStarted { AfterReport(marks, pause, Suspended); }
        marks := marks + [Suspended];
      }
      if pause == Pending && d.handle == UtoP && d.suspended {
        pause := Confirmed;
      }
      if d.handle == UtoP && d.failed {
        if linkStarted { AfterReport(marks, pause, Faulted); }
        marks := marks + [Faulted];
      }
      if pause == Pending && d.handle == UtoP && d.failed {
        pause := Failed;
      }
    }

    /** Callbacks delivered while the suspend call is still running. */
    method Deliver(events: seq<DmaEvent>)
      requires PauseOk()
      modifies `pause, `marks
      ensures PauseOk()
      ensures marks == old(marks) + ReportsOf(events)
      ensures old(pause) != Idle ==> pause != Idle
      ensures (forall d :: d in events ==> d.handle != UtoP) ==> pause == old(pause)
    {
      if events != [] {
        Deliver(events[..|events| - 1]);
        DmaCallback(events[|events| - 1]);
      }
    }

    method Request()
      requires linkStarted && pause == Idle
      modifies `pause, `marks
      ensures PauseOk() && pause == Pending && marks == old(marks) + [Requested]
    {
      AfterRequest(marks);
      pause := Pending;
      marks := marks + [Requested];
    }

    method Refuse()
      requires linkStarted && PauseOk() && pause != Idle
      modifies `pause, `marks
      ensures PauseOk() && pause == Failed && marks == old(marks) + [Refused]
    {
      AfterRefusal(marks, pause);
      pause := Failed;
      marks := marks + [Refused];
    }

    /** The suspend call on an idle TX channel. */
    method SuspendTx(suspendOk: bool, during: seq<DmaEvent>)
      requires linkStarted && pause == Idle
      modifies `pause, `marks
      ensures PauseOk() && pause != Idle
      ensures marks == old(marks) + ([Requested] + ReportsOf(during) + (if suspendOk then [] else [Refused]))
      ensures (forall d :: d in during ==> d.handle != UtoP) ==> pause != Confirmed
    {
      Request();
      Deliver(during);
      Associates(old(marks), [Requested], ReportsOf(during), [Refused]);
      if !suspendOk {
        Refuse();
      }
    }

    /** `NuandRFLinkPauseTxDma`. */
    method PauseTxDma(suspendOk: bool, during: seq<DmaEvent>) returns (ok: bool)
      requires PauseOk()
      modifies `pause, `marks
      ensures PauseOk() && FailureKept(old(marks), old(pause), marks, pause)
      ensures ok == (linkStarted && !loopbackWhenCreated && old(pause) != Failed && (old(pause) == Idle ==> suspendOk))
      ensures linkStarted && !loopbackWhenCreated && old(pause) == Idle ==>
                marks == old(marks) + ([Requested] + ReportsOf(during) + (if suspendOk then [] else [Refused]))
      ensures !linkStarted || loopbackWhenCreated || old(pause) != Idle ==> marks == old(marks) && pause == old(pause)
      ensures ok ==> pause != Idle
      ensures (forall d :: d in during ==> d.handle != UtoP) ==> pause != Confirmed || old(pause) == Confirmed
    {
      if !linkStarted || loopbackWhenCreated {
        return false;
      }
      if pause == Pending || pause == Confirmed {
        return true;
      }
      if pause == Failed {
        return false;
      }
      SuspendTx(suspendOk, during);
      return suspendOk;
    }

    /** `NuandRFLinkResetEndpoint`: only the TX sample endpoint is a boundary of the pause, and it is
        one even when clearing the channel then fails. */
    method ResetEndpoint(endpoint: Endpoint)
      requires PauseOk()
      modifies `pause, `marks
      ensures PauseOk() && FailureKept(old(marks), old(pause), marks, pause)
      ensures pause == if endpoint == SampleProducer then Idle else old(pause)
      ensures marks == old(marks) + (if endpoint == SampleProducer then [EndpointReset] else [])
    {
      if endpoint == SampleProducer {
        pause := Idle;
        AfterBoundary(marks, EndpointReset);
        marks := marks + [EndpointReset];
        assert Boundary(marks[|marks| - 1]);
      }
    }

    // ----- USB events and vendor requests (bladeRF.c)

    method StopApplication()
      requires Valid()
      modifies this
      ensures Valid() && Idling() && alt == IF_NULL && loopback == old(loopback)
      ensures pause == old(pause) && marks == old(marks) + (if old(linkStarted) then [Stopped] else [])
    {
      if appMode == RfMode {
        RfStop();
      } else if appMode == ConfigMode {
        ConfigStop();
      }
      alt := IF_NULL;
    }

    /** What the previous alternate setting was running is stopped. */
    method StopCurrent()
      requires Valid()
      modifies this
      ensures Clean(seen) && Idling() && PauseOk() && loopback == old(loopback)
      ensures pause == old(pause) && marks == old(marks) + (if old(linkStarted) then [Stopped] else [])
    {
      if alt == IF_CONFIG {
        ConfigStop();
      } else if alt == IF_RF_LINK {
        RfStop();
      }
    }

    method HandleSetInterface(interface: int, newAlt: int, speed: Speed)
      requires Valid() && (newAlt == IF_RF_LINK ==> speed != NotConnected)
      modifies this
      ensures Valid() && FailureKept(old(marks), old(pause), marks, pause) && loopback == old(loopback)
      ensures alt == if interface == 0 then newAlt else old(alt)
      ensures marks == old(marks + Emits(SetInterface(interface, newAlt, speed)))
      ensures pause in {Idle, old(pause)}
      ensures interface != 0 ==> seen == old(seen) && loopbackWhenCreated == old(loopbackWhenCreated)
      ensures interface == 0 && newAlt == IF_RF_LINK ==>
                pause == Idle && loopbackWhenCreated == (loopback != 0)
                && seen.live == SamplePath(loopback != 0, 12 * (PacketSize(speed) * 8))
    {
      if interface != 0 {
        return;
      }
      if newAlt == alt && newAlt == IF_SPI_FLASH {
        return;
      }
      StopCurrent();
      if newAlt == IF_CONFIG {
        ConfigStart(speed);
      } else if newAlt == IF_RF_LINK {
        RfStart(speed);
        assert Boundary(marks[|marks| - 1]);
      }
      alt := newAlt;
    }

    method HandlePause(wValue: int, wIndex: int, wLength: int, suspendOk: bool, during: seq<DmaEvent>) returns (acked: bool)
      requires Valid()
      modifies `pause, `marks
      ensures Valid() && FailureKept(old(marks), old(pause), marks, pause)
      ensures marks == old(marks + Emits(PauseTx(wValue, wIndex, wLength, suspendOk, during)))
      ensures acked <==>
                && alt == IF_RF_LINK && wValue == wIndex == wLength == 0
                && !loopbackWhenCreated && old(pause) != Failed && (old(pause) == Idle ==> suspendOk)
      ensures acked ==> pause != Idle
      ensures (forall d :: d in during ==> d.handle != UtoP) ==> pause != Confirmed || old(pause) == Confirmed
    {
      acked := false;
      if alt != IF_RF_LINK || wValue != 0 || wIndex != 0 || wLength != 0 {
        return;
      }
      acked := PauseTxDma(suspendOk, during);
    }

    /** A host that reads Confirmed sees a suspend of the channel that runs now, reported after its
        request and with no start, stop or endpoint reset after that request. */
    method QueryPause(wValue: int, wIndex: int, wLength: int) returns (stalled: bool, answer: PauseState)
      requires Valid()
      ensures stalled <==> alt != IF_RF_LINK || wValue != 0 || wIndex != 0 || wLength != 4
      ensures !stalled ==> RfRunning() && forall p :: PauseIs(marks, p) <==> p == answer
    {
      if alt != IF_RF_LINK || wValue != 0 || wIndex != 0 || wLength != 4 {
        return true, Idle;
      }
      forall p | PauseIs(marks, p) ensures p == pause { PauseUnique(marks, p, pause); }
      return false, pause;
    }

    /** With Valid(), these clauses fix the whole new state: the history fixes the pause, and the
        alternate setting and the loopback setting at the last start fix the live channels. */
    method Step(e: Event)
      requires Valid() && Possible(e)
      modifies this
      ensures Valid() && FailureKept(old(marks), old(pause), marks, pause)
      ensures marks == old(marks + Emits(e)) && alt == old(AltAfter(e))
      ensures loopback == if e.SetLoopback? then e.value else old(loopback)
      ensures if e.SetInterface? && e.interface == 0 && e.alt == IF_RF_LINK
              then loopbackWhenCreated == (loopback != 0) && seen.live == SamplePath(loopback != 0, 12 * (PacketSize(e.speed) * 8))
              else alt == IF_RF_LINK ==> loopbackWhenCreated == old(loopbackWhenCreated) && seen == old(seen)
      ensures NoTxCallback(e) && pause == Confirmed ==> old(pause) == Confirmed
    {
      match e
      case SetInterface(interface, newAlt, speed) => HandleSetInterface(interface, newAlt, speed);
      case UsbReset => StopApplication();
      case Disconnect => StopApplication();
      case JumpToBootloader => StopApplication();
      case SetLoopback(value) => loopback := value;
      case RfTx(enable, gpioOk) =>
        if gpioOk && !enable {
          ResetEndpoint(SampleProducer);
        }
      case HaltEndpoint(endpoint) =>
        if appMode != NoConfig && alt == IF_RF_LINK {
          ResetEndpoint(endpoint);
        }
      case PauseTx(wValue, wIndex, wLength, suspendOk, during) =>
        var _ := HandlePause(wValue, wIndex, wLength, suspendOk, during);
      case Dma(d) => DmaCallback(d);
    }

    /** Every run keeps the channel discipline and the meaning of the pause state. */
    method Run(events: seq<Event>)
      requires Valid() && forall e :: e in events ==> Possible(e)
      modifies this
      ensures Valid() && FailureKept(old(marks), old(pause), marks, pause)
      ensures (forall e :: e in events ==> NoTxCallback(e)) && pause == Confirmed ==> old(pause) == Confirmed
    {
      for i := 0 to |events|
        invariant Valid() && FailureKept(old(marks), old(pause), marks, pause)
        invariant (forall e :: e in events ==> NoTxCallback(e)) && pause == Confirmed ==> old(pause) == Confirmed
      {
        ghost var m, p := marks, pause;
        Step(events[i]);
        FailureKeptThrough(old(marks), old(pause), m, p, marks, pause);
      }
    }
  }
}
