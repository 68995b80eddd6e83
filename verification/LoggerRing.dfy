/** The firmware log: 32-bit entries in a ring that warns in its last slot before it starts to drop. */
module LoggerRing {

  // ----- Entries

  const LOG_EOF: nat := 0
  const LOG_ERR: nat := 0xffff_ffff

  function Pack(file: nat, line: nat, data: nat): nat {
    data % 0x1_0000 + (line % 0x800) * 0x1_0000 + (file % 0x20) * 0x800_0000
  }

  datatype Fields = Fields(file: nat, line: nat, data: nat)

  function Unpack(e: nat): Fields {
    Fields(e / 0x800_0000 % 0x20, e / 0x1_0000 % 0x800, e % 0x1_0000)
  }

  /** Unpacking gives back the masked fields, and only the all-zero and all-one fields give the two
      marker words. */
  lemma PackUnpack(file: nat, line: nat, data: nat)
    ensures Pack(file, line, data) <= LOG_ERR
    ensures Unpack(Pack(file, line, data)) == Fields(file % 0x20, line % 0x800, data % 0x1_0000)
    ensures Pack(file, line, data) == LOG_EOF <==> file % 0x20 == 0 && line % 0x800 == 0 && data % 0x1_0000 == 0
    ensures Pack(file, line, data) == LOG_ERR <==> file % 0x20 == 0x1f && line % 0x800 == 0x7ff && data % 0x1_0000 == 0xffff
  {
    var f, l, d := file % 0x20, line % 0x800, data % 0x1_0000;
    var e := d + l * 0x1_0000 + f * 0x800_0000;
    assert e / 0x1_0000 == l + f * 0x800;
  }

  /** The data are bits 0 to 15, the line bits 16 to 26 and the file bits 27 to 31. */
  lemma PackUnits()
    ensures Pack(0, 0, 1) == 0x0000_0001 && Pack(0, 0, 0xffff) == 0x0000_ffff
    ensures Pack(0, 1, 0) == 0x0001_0000 && Pack(0, 0x7ff, 0) == 0x07ff_0000
    ensures Pack(1, 0, 0) == 0x0800_0000 && Pack(0x1f, 0, 0) == 0xf800_0000
    ensures Warning() == 0x2869_0000
  {
  }

  lemma UnpackPack(e: nat)
    requires e <= LOG_ERR
    ensures var u := Unpack(e); Pack(u.file, u.line, u.data) == e
  {
    assert e / 0x800_0000 == e / 0x1_0000 / 0x800;
  }

  // ----- The log as a queue

  const THIS_FILE: nat := 5
  const WARNING_LINE: nat := 105

  function Warning(): nat { Pack(THIS_FILE, WARNING_LINE, 0) }

  /** What recording one entry adds to a log of n slots: nothing when it is full, and the warning
      too when only two slots are free. */
  function Added(n: nat, q: seq<nat>, e: nat): seq<nat> {
    if |q| == n then [] else if |q| == n - 2 then [e, Warning()] else [e]
  }

  datatype Event = Record(file: nat, line: nat, data: nat, locked: bool) | Read(locked: bool)

  function EntryOf(e: Event): nat
    requires e.Record?
  {
    Pack(e.file, e.line, e.data)
  }

  /** The queue, with everything that entered it and everything that was read from it so far. */
  datatype History = History(queue: seq<nat>, stored: seq<nat>, read: seq<nat>)

  function Next(n: nat, h: History, e: Event): History {
    if !e.locked then h
    else match e
      case Record(file, line, data, _) =>
        History(h.queue + Added(n, h.queue, EntryOf(e)), h.stored + Added(n, h.queue, EntryOf(e)), h.read)
      case Read(_) =>
        if h.queue == [] then h else History(h.queue[1..], h.stored, h.read + [h.queue[0]])
  }

  /** The log after the first t events. */
  function Run(n: nat, events: seq<Event>, t: nat): History
    requires t <= |events|
  {
    if t == 0 then History([], [], []) else Next(n, Run(n, events, t - 1), events[t - 1])
  }

  lemma InOrder(n: nat, h: History, e: Event)
    requires h.stored == h.read + h.queue && |h.queue| <= n
    ensures var g := Next(n, h, e); g.stored == g.read + g.queue && |g.queue| <= n
  {
  }

  /** First in, first out, nothing lost or altered on the way, and never more than n entries. */
  lemma {:induction false} Fifo(n: nat, events: seq<Event>, t: nat)
    requires t <= |events|
    ensures var h := Run(n, events, t); h.stored == h.read + h.queue && |h.queue| <= n
  {
    if t > 0 {
      Fifo(n, events, t - 1);
      InOrder(n, Run(n, events, t - 1), events[t - 1]);
    }
  }

  /** What one event does: a record with room stores its entry behind the others, and the warning behind
      it when only two slots are free; a read takes the oldest; anything else changes nothing. */
  lemma EveryEvent(n: nat, events: seq<Event>, t: nat)
    requires t < |events|
    ensures var e, q, q' := events[t], Run(n, events, t).queue, Run(n, events, t + 1).queue;
            && (e.Record? && e.locked && |q| != n ==>
                  && |q'| == |q| + (if |q| == n - 2 then 2 else 1)
                  && q'[..|q|] == q && q'[|q|] == Pack(e.file, e.line, e.data)
                  && (|q| == n - 2 ==> q'[|q| + 1] == Pack(5, 105, 0)))
            && (e.Read? && e.locked && q != [] ==> q == [q[0]] + q')
            && (!e.locked || (e.Record? && |q| == n) || (e.Read? && q == []) ==> q' == q)
  {
  }

  /** Step s of the run stored the fill warning. */
  predicate WarningStored(n: nat, events: seq<Event>, s: nat)
    requires s < |events|
  {
    && events[s].Record? && events[s].locked
    && |Run(n, events, s).queue| == n - 2
    && Run(n, events, s + 1).queue == Run(n, events, s).queue + [EntryOf(events[s]), Warning()]
  }

  predicate NearlyFull(n: nat, h: History) { |h.queue| >= n - 1 }

  /** Step s stored the warning, and from then until after step t fewer than two slots were free. */
  predicate WarnedAt(n: nat, events: seq<Event>, s: nat, t: nat)
    requires t <= |events|
  {
    s < t && WarningStored(n, events, s) && forall i :: s < i <= t ==> NearlyFull(n, Run(n, events, i))
  }

  /** The only way past n - 2 entries. */
  lemma Crossing(n: nat, events: seq<Event>, t: nat)
    requires n >= 2 && t < |events| && !NearlyFull(n, Run(n, events, t)) && NearlyFull(n, Run(n, events, t + 1))
    ensures WarningStored(n, events, t)
  {
    assert Run(n, events, t + 1) == Next(n, Run(n, events, t), events[t]);
  }

  /** Whenever the log is so full that an entry may be dropped, the step that took it past n - 2
      entries for the last time stored the warning. */
  lemma {:induction false} FullIsWarned(n: nat, events: seq<Event>, t: nat)
    requires n >= 2 && t <= |events| && NearlyFull(n, Run(n, events, t))
    ensures exists s :: WarnedAt(n, events, s, t)
  {
    if NearlyFull(n, Run(n, events, t - 1)) {
      FullIsWarned(n, events, t - 1);
      var s :| WarnedAt(n, events, s, t - 1);
      assert WarnedAt(n, events, s, t);
    } else {
      Crossing(n, events, t - 1);
      assert WarnedAt(n, events, t - 1, t);
    }
  }

  predicate Drops(n: nat, h: History, e: Event) { e.Record? && e.locked && |h.queue| == n }

  /** A drop happens only after a fill warning was stored and since then fewer than two slots were
      ever free. */
  lemma DropIsWarned(n: nat, events: seq<Event>, t: nat)
    requires n >= 2 && t < |events| && Drops(n, Run(n, events, t), events[t])
    ensures exists s :: WarnedAt(n, events, s, t)
    ensures Run(n, events, t + 1) == Run(n, events, t)
  {
    FullIsWarned(n, events, t);
  }

  /** The file identifiers of the firmware's own sources. */
  predicate FirmwareFile(file: nat) { 1 <= file <= 7 }

  predicate FromFirmware(events: seq<Event>) {
    forall k :: 0 <= k < |events| && events[k].Record? ==> FirmwareFile(events[k].file)
  }

  predicate Marker(e: nat) { e == LOG_EOF || e == LOG_ERR }

  lemma NotAMarker(file: nat, line: nat, data: nat)
    requires FirmwareFile(file)
    ensures !Marker(Pack(file, line, data))
  {
    PackUnpack(file, line, data);
  }

  lemma StoresNoMarker(n: nat, h: History, e: Event)
    requires e.Record? ==> FirmwareFile(e.file)
    requires LOG_EOF !in h.stored && LOG_ERR !in h.stored
    ensures var g := Next(n, h, e); LOG_EOF !in g.stored && LOG_ERR !in g.stored
  {
    if e.Record? {
      NotAMarker(e.file, e.line, e.data);
      NotAMarker(THIS_FILE, WARNING_LINE, 0);
      assert forall x :: x in Added(n, h.queue, EntryOf(e)) ==> !Marker(x);
    }
  }

  /** No entry recorded by the firmware looks like a marker. */
  lemma {:induction false} NoMarkerStored(n: nat, events: seq<Event>, t: nat)
    requires FromFirmware(events) && t <= |events|
    ensures var h := Run(n, events, t); LOG_EOF !in h.stored && LOG_ERR !in h.stored
  {
    if t > 0 {
      NoMarkerStored(n, events, t - 1);
      StoresNoMarker(n, Run(n, events, t - 1), events[t - 1]);
    }
  }

  /** What `logger_read` answers. */
  function Answer(queue: seq<nat>, locked: bool): nat {
    if !locked then LOG_ERR else if queue == [] then LOG_EOF else queue[0]
  }

  /** The markers mean what they say: the end is reported exactly when the log is empty, and an error
      exactly when the lock was refused. */
  lemma MarkersMean(n: nat, events: seq<Event>, t: nat, locked: bool)
    requires FromFirmware(events) && t <= |events|
    ensures var q := Run(n, events, t).queue;
            && (Answer(q, locked) == LOG_EOF <==> locked && q == [])
            && (Answer(q, locked) == LOG_ERR <==> !locked)
  {
    NoMarkerStored(n, events, t);
    Fifo(n, events, t);
    var h := Run(n, events, t);
    if h.queue != [] { assert h.queue[0] == h.stored[|h.read|]; }
  }

  // ----- The ring

  function Slot(n: nat, start: nat, i: nat): (s: nat)
    requires start < n && i <= n
    ensures s < n
  {
    if start + i < n then start + i else start + i - n
  }

  function Window(slots: seq<nat>, start: nat, size: nat): (q: seq<nat>)
    requires start < |slots| && size <= |slots|
    ensures |q| == size
  {
    seq(size, i requires 0 <= i < size => slots[Slot(|slots|, start, i)])
  }

  lemma WindowPush(slots: seq<nat>, start: nat, size: nat, e: nat)
    requires start < |slots| && size < |slots|
    ensures Window(slots[Slot(|slots|, start, size) := e], start, size + 1) == Window(slots, start, size) + [e]
  {
  }

  lemma WindowPop(slots: seq<nat>, start: nat, size: nat)
    requires start < |slots| && 1 <= size <= |slots|
    ensures Window(slots, start, size)[1..] == Window(slots, Slot(|slots|, start, 1), size - 1)
    ensures Window(slots, start, size)[0] == slots[start]
  {
  }

  lemma NextSlot(n: nat, start: nat, i: nat)
    requires start < n && i < n
    ensures (Slot(n, start, i) + 1) % n == Slot(n, start, i + 1)
  {
    var s := Slot(n, start, i);
    if s + 1 < n { assert (s + 1) % n == s + 1; } else { assert s + 1 == n; }
  }

  class Ring {
    const entries: array<nat>
    var size: nat
    var insert: nat
    var remove: nat

    ghost predicate Valid()
      reads this
    {
      && entries.Length >= 1 && size <= entries.Length && remove < entries.Length
      && insert == Slot(entries.Length, remove, size)
    }

    ghost function Contents(): seq<nat>
      reads this, entries
      requires Valid()
    {
      Window(entries[..], remove, size)
    }

    constructor (n: nat)
      requires n >= 1
      ensures Valid() && fresh(entries) && entries.Length == n && Contents() == []
    {
      entries := new nat[n];
      size, insert, remove := 0, 0, 0;
    }

    /** The two statements that store an entry. */
    method Push(e: nat)
      requires Valid() && size < entries.Length
      modifies this, entries
      ensures Valid() && Contents() == old(Contents()) + [e] && size == old(size) + 1
    {
      WindowPush(entries[..], remove, size, e);
      NextSlot(entries.Length, remove, size);
      entries[insert] := e;
      insert := (insert + 1) % entries.Length;
      size := size + 1;
    }

    method RecordEntry(file: nat, line: nat, data: nat, locked: bool) returns (success: bool)
      requires Valid()
      modifies this, entries
      ensures Valid()
      ensures success <==> locked && old(size) < entries.Length
      ensures Contents() == if locked then old(Contents()) + Added(entries.Length, old(Contents()), Pack(file, line, data)) else old(Contents())
    {
      if !locked {
        return false;
      }
      if size == entries.Length {
        return false;
      }
      var fillWarning := size == entries.Length - 2;
      Push(Pack(file, line, data));
      if fillWarning {
        Push(Pack(THIS_FILE, WARNING_LINE, 0));
      }
      return true;
    }

    method ReadEntry(locked: bool) returns (e: nat)
      requires Valid()
      modifies this
      ensures Valid() && entries[..] == old(entries[..])
      ensures e == Answer(old(Contents()), locked)
      ensures Contents() == if locked && old(size) > 0 then old(Contents())[1..] else old(Contents())
    {
      if !locked {
        return LOG_ERR;
      }
      if size == 0 {
        return LOG_EOF;
      }
      WindowPop(entries[..], remove, size);
      NextSlot(entries.Length, remove, 0);
      e := entries[remove];
      size := size - 1;
      remove := (remove + 1) % entries.Length;
    }

    /** The ring refines the queue over every run. */
    method Replay(events: seq<Event>) returns (answers: seq<nat>)
      requires Valid() && Contents() == []
      modifies this, entries
      ensures Valid() && Contents() == Run(entries.Length, events, |events|).queue
      ensures |answers| == |events|
      ensures forall k :: 0 <= k < |events| && events[k].Read? ==>
                            answers[k] == Answer(Run(entries.Length, events, k).queue, events[k].locked)
    {
      answers := [];
      for i := 0 to |events|
        invariant Valid() && |answers| == i
        invariant Contents() == Run(entries.Length, events, i).queue
        invariant forall k :: 0 <= k < i && events[k].Read? ==>
                                answers[k] == Answer(Run(entries.Length, events, k).queue, events[k].locked)
      {
        var answer := 0;
        match events[i] {
          case Record(file, line, data, locked) =>
            var _ := RecordEntry(file, line, data, locked);
          case Read(locked) =>
            answer := ReadEntry(locked);
        }
        answers := answers + [answer];
      }
    }
  }
}
