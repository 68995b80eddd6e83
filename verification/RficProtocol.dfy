/** The stop-and-wait protocol of RFIC writes: a host tags a command, the NIOS core queues it, runs it
    and keeps its terminal result until the host acknowledges it by transaction id and sequence
    number. Untagged (legacy) writes share the queue until the first tagged one is accepted. */
module RficProtocol {

  // ----- Results of one command

  datatype Code = Success | Timeout | InvalidParameter | Io | Unsupported | Internal | NoResult

  /** The toolchain's error numbers. */
  datatype Errno = Errno(etimedout: int, einval: int, erange: int, eio: int, eopnotsupp: int, enotsup: int)

  const INT32_MIN: int := -0x8000_0000

  function FromStatus(en: Errno, status: int): (c: Code)
    ensures c != NoResult
    ensures c == Success <==> status >= 0
  {
    if status >= 0 then Success
    else if status == INT32_MIN then Internal
    else if -status == en.etimedout then Timeout
    else if -status == en.einval || -status == en.erange then InvalidParameter
    else if -status == en.eio then Io
    else if -status == en.eopnotsupp || -status == en.enotsup then Unsupported
    else Internal
  }

  /** Positive and different from each other, except that the last two may be one number. */
  predicate Proper(en: Errno) {
    && Number(en.etimedout) && Number(en.einval) && Number(en.erange) && Number(en.eio) && Number(en.eopnotsupp) && Number(en.enotsup)
    && en.etimedout !in {en.einval, en.erange, en.eio, en.eopnotsupp, en.enotsup}
    && en.eio !in {en.einval, en.erange, en.eopnotsupp, en.enotsup}
    && en.einval !in {en.eopnotsupp, en.enotsup} && en.erange !in {en.eopnotsupp, en.enotsup}
  }

  predicate Number(e: int) { 0 < e < -INT32_MIN }

  /** Each class of results is named by its own error numbers. */
  lemma ErrnoClasses(en: Errno, status: int)
    requires Proper(en)
    ensures FromStatus(en, status) == Timeout <==> status == -en.etimedout
    ensures FromStatus(en, status) == InvalidParameter <==> status == -en.einval || status == -en.erange
    ensures FromStatus(en, status) == Io <==> status == -en.eio
    ensures FromStatus(en, status) == Unsupported <==> status == -en.eopnotsupp || status == -en.enotsup
  {
  }

  function LatchError(en: Errno, latched: Code, status: int): Code {
    if status >= 0 then latched
    else if latched != NoResult && latched != Success then latched
    else FromStatus(en, status)
  }

  function Finalize(latched: Code, succeeded: bool): Code {
    if latched == NoResult then (if succeeded then Success else Internal)
    else if latched == Success && !succeeded then Internal
    else latched
  }

  function FinalizeWithCleanup(latched: Code, succeeded: bool, cleanup: Code): Code {
    Finalize(latched, succeeded && cleanup == Success)
  }

  /** Every status a command reports while it runs, latched in turn. */
  function Latched(en: Errno, start: Code, statuses: seq<int>): Code {
    if statuses == [] then start
    else LatchError(en, Latched(en, start, statuses[..|statuses| - 1]), statuses[|statuses| - 1])
  }

  /** Cleanup errors, of which the first is kept. */
  function CleanupLatched(en: Errno, statuses: seq<int>): Code {
    if statuses == [] then Success
    else
      var before := CleanupLatched(en, statuses[..|statuses| - 1]);
      var status := statuses[|statuses| - 1];
      if status < 0 && before == Success then FromStatus(en, status) else before
  }

  predicate FirstError(statuses: seq<int>, k: int) {
    0 <= k < |statuses| && statuses[k] < 0 && forall j :: 0 <= j < k ==> statuses[j] >= 0
  }

  predicate NoError(statuses: seq<int>) { forall j :: 0 <= j < |statuses| ==> statuses[j] >= 0 }

  lemma {:induction false} ErrorOrNone(statuses: seq<int>)
    ensures NoError(statuses) <==> !exists k :: FirstError(statuses, k)
  {
    if statuses != [] {
      var init := statuses[..|statuses| - 1];
      ErrorOrNone(init);
      if NoError(init) {
        if statuses[|statuses| - 1] < 0 { assert FirstError(statuses, |statuses| - 1); }
      } else {
        var k :| FirstError(init, k);
        assert FirstError(statuses, k);
      }
    }
  }

  lemma {:induction false} LatchedFirst(en: Errno, start: Code, statuses: seq<int>)
    requires start == NoResult || start == Success
    ensures NoError(statuses) ==> Latched(en, start, statuses) == start && CleanupLatched(en, statuses) == Success
    ensures forall k :: FirstError(statuses, k) ==>
                          Latched(en, start, statuses) == FromStatus(en, statuses[k]) == CleanupLatched(en, statuses)
  {
    if statuses != [] {
      var init := statuses[..|statuses| - 1];
      LatchedFirst(en, start, init);
      forall k | FirstError(statuses, k)
        ensures Latched(en, start, statuses) == FromStatus(en, statuses[k]) == CleanupLatched(en, statuses)
      {
        if k < |init| { assert FirstError(init, k); } else { assert NoError(init); }
      }
    }
  }

  /** What a command reports while it runs: statuses, what its callback returns, statuses of cleanup. */
  datatype Report = Report(statuses: seq<int>, succeeded: bool, cleanups: seq<int>)

  /** What it comes to in the end. */
  function Outcome(en: Errno, p: Report): Code {
    FinalizeWithCleanup(Latched(en, NoResult, p.statuses), p.succeeded, CleanupLatched(en, p.cleanups))
  }

  /** Nothing went wrong anywhere. */
  predicate AllWell(p: Report) { NoError(p.statuses) && p.succeeded && NoError(p.cleanups) }

  /** Success means that nothing went wrong anywhere; the first concrete error is the one reported,
      whatever the callback returned and whatever cleanup did; a failure that named no error, or one
      of cleanup alone, is Internal. */
  lemma OutcomeFaithful(en: Errno, p: Report)
    ensures Outcome(en, p) == Success <==> AllWell(p)
    ensures forall k :: FirstError(p.statuses, k) ==> Outcome(en, p) == FromStatus(en, p.statuses[k])
    ensures NoError(p.statuses) && !AllWell(p) ==> Outcome(en, p) == Internal
    ensures Outcome(en, p) != NoResult
  {
    LatchedFirst(en, NoResult, p.statuses);
    LatchedFirst(en, NoResult, p.cleanups);
    ErrorOrNone(p.statuses);
    ErrorOrNone(p.cleanups);
    if !NoError(p.cleanups) {
      var k :| FirstError(p.cleanups, k);
      assert CleanupLatched(en, p.cleanups) == FromStatus(en, p.cleanups[k]);
    }
  }

  // ----- Admission and acknowledgement guards

  predicate AckIsDuplicate(lastAckedId: nat, lastAckedSequence: nat, id: nat, sequence: nat) {
    id != 0 && lastAckedId == id && lastAckedSequence == sequence
  }

  predicate AckMatches(pending: bool, count: nat, resultId: nat, resultSequence: nat, id: nat, sequence: nat) {
    pending && count == 0 && id != 0 && resultId == id && resultSequence == sequence
  }

  const QUEUE_DEPTH: nat := 16
  const TAGGED_QUEUE_DEPTH: nat := 1

  predicate TaggedWriteAllowed(count: nat, pending: bool, lastId: nat) {
    count + (if pending && lastId != 0 then 1 else 0) < TAGGED_QUEUE_DEPTH
  }

  // ----- The queue

  /** Sequence numbers are 32 bits wide. */
  const WRAP: nat := 0x1_0000_0000

  datatype Command = Command(ch: nat, cmd: nat, value: nat)

  /** A queued write; `finished` once its callback has returned and its result is final. */
  datatype Entry = Entry(id: nat, command: Command, finished: bool, result: Code, cleanup: Code)

  function Fresh(id: nat, c: Command): Entry { Entry(id, c, false, NoResult, Success) }

  datatype Queue = Queue(
    entries: seq<Entry>,
    tagged: bool,
    pending: bool,
    lastId: nat,
    lastCommand: Command,
    lastResult: Code,
    lastCleanup: Code,
    sequence: nat,
    ackedId: nat,
    ackedSequence: nat)

  datatype Admission = Accepted | Rejected | QueueFull

  function ResetQueue(): Queue { Queue([], false, false, 0, Command(0, 0, 0), NoResult, NoResult, 0, 0, 0) }

  datatype Lookup = Absent | Same | Different

  function FindQueued(entries: seq<Entry>, id: nat, c: Command): Lookup {
    if entries == [] then Absent
    else if entries[0].id == id then (if entries[0].command == c then Same else Different)
    else FindQueued(entries[1..], id, c)
  }

  function FindTransaction(q: Queue, id: nat, c: Command): Lookup {
    if id == 0 then Absent
    else if FindQueued(q.entries, id, c) != Absent then FindQueued(q.entries, id, c)
    else if q.lastId == id then (if q.lastCommand == c then Same else Different)
    else Absent
  }

  /** A write: `permitted` unless a calibration fault bars the command, `known` when the command
      exists and is valid on its channel. */
  function Admit(q: Queue, id: nat, c: Command, permitted: bool, known: bool): (Queue, Admission) {
    if !permitted then (q, Rejected)
    else if id == 0 && q.tagged then (q, Rejected)
    else if FindTransaction(q, id, c) == Same then (q, Accepted)
    else if FindTransaction(q, id, c) == Different then (q, Rejected)
    else if id != 0 && !TaggedWriteAllowed(|q.entries|, q.pending, q.lastId) then (q, QueueFull)
    else if !known then (q, Rejected)
    else if |q.entries| >= QUEUE_DEPTH then (q, QueueFull)
    else
      var queued := q.(entries := q.entries + [Fresh(id, c)]);
      if id == 0 then (queued, Accepted)
      else if q.pending then (queued.(tagged := true, pending := false, lastResult := NoResult, lastCleanup := NoResult), Accepted)
      else (queued.(tagged := true), Accepted)
  }

  /** An acknowledgement; `data` is the 64-bit word it carries. */
  function Acknowledge(q: Queue, id: nat, data: nat): (Queue, bool) {
    if data >= WRAP || id == 0 then (q, false)
    else if AckIsDuplicate(q.ackedId, q.ackedSequence, id, data) then (q, true)
    else if !AckMatches(q.pending, |q.entries|, q.lastId, q.sequence, id, data) || q.lastResult == NoResult then (q, false)
    else (q.(pending := false, lastResult := NoResult, lastCleanup := NoResult, ackedId := id, ackedSequence := data), true)
  }

  /** The command at the head has run to its end. */
  function Finish(q: Queue, result: Code, cleanup: Code): Queue {
    if q.entries == [] || q.entries[0].finished then q
    else q.(entries := [q.entries[0].(finished := true, result := result, cleanup := cleanup)] + q.entries[1..])
  }

  /** A finished head leaves the queue and becomes the retained result. */
  function Retire(q: Queue): Queue {
    if q.entries == [] || !q.entries[0].finished then q
    else
      var e := q.entries[0];
      q.(entries := q.entries[1..], pending := true, lastId := e.id, lastCommand := e.command, lastResult := e.result,
         lastCleanup := e.cleanup, sequence := (q.sequence + 1) % WRAP)
  }

  // ----- Runs, with a ledger of what happened

  datatype Step =
    | WriteStep(id: nat, command: Command, permitted: bool, known: bool)
    | FinishStep(report: Report)
    | RetireStep
    | AckStep(id: nat, data: nat)

  /** `entered` and `commands` list the ids (0 for untagged) and commands of all writes that entered the
      queue, `reports` what each command reported by the time it had run, in order; `accepted`
      counts the tagged ones among them, `retired` lists the ids of all
      results in order, `acked` the positions in `retired`, from 1, that were
      consumed by an acknowledgement. */
  datatype World = World(q: Queue, entered: seq<nat>, commands: seq<Command>, reports: seq<Report>,
                         accepted: nat, retired: seq<nat>, acked: seq<nat>)

  function Start(): World { World(ResetQueue(), [], [], [], 0, [], []) }

  function Next(en: Errno, w: World, s: Step): World {
    match s
    case WriteStep(id, c, permitted, known) =>
      var q := Admit(w.q, id, c, permitted, known).0;
      if q == w.q then w
      else w.(q := q, entered := w.entered + [id], commands := w.commands + [c], accepted := if id != 0 then w.accepted + 1 else w.accepted)
    case FinishStep(p) =>
      if w.q.entries == [] || w.q.entries[0].finished then w
      else w.(q := Finish(w.q, Outcome(en, p), CleanupLatched(en, p.cleanups)), reports := w.reports + [p])
    case RetireStep =>
      if w.q.entries == [] || !w.q.entries[0].finished then w
      else w.(q := Retire(w.q), retired := w.retired + [w.q.entries[0].id])
    case AckStep(id, data) =>
      var q := Acknowledge(w.q, id, data).0;
      if q == w.q then w else w.(q := q, acked := w.acked + [|w.retired|])
  }

  function Run(en: Errno, w: World, steps: seq<Step>): World {
    if steps == [] then w else Next(en, Run(en, w, steps[..|steps| - 1]), steps[|steps| - 1])
  }

  ghost predicate Reachable(en: Errno, w: World) { exists steps :: w == Run(en, Start(), steps) }

  /** Tagged commands queued or waiting for their acknowledgement. */
  function Outstanding(q: Queue): nat {
    TaggedIn(q.entries) + (if q.pending && q.lastId != 0 then 1 else 0)
  }

  function TaggedIn(entries: seq<Entry>): nat {
    if entries == [] then 0 else (if entries[0].id != 0 then 1 else 0) + TaggedIn(entries[1..])
  }

  /** The positions, from 1, of the tagged results among the first n. */
  function TaggedResults(retired: seq<nat>, n: nat): seq<nat>
    requires n <= |retired|
  {
    if n == 0 then []
    else TaggedResults(retired, n - 1) + (if retired[n - 1] != 0 then [n] else [])
  }

  lemma {:induction false} TaggedResultsPrefix(retired: seq<nat>, id: nat, n: nat)
    requires n <= |retired|
    ensures TaggedResults(retired + [id], n) == TaggedResults(retired, n)
  {
    if n > 0 { TaggedResultsPrefix(retired, id, n - 1); }
  }

  lemma {:induction false} NoneTagged(retired: seq<nat>, n: nat)
    requires n <= |retired| && forall k :: 0 <= k < |retired| ==> retired[k] == 0
    ensures TaggedResults(retired, n) == []
  {
    if n > 0 { NoneTagged(retired, n - 1); }
  }

  lemma {:induction false} UntaggedEntries(entries: seq<Entry>)
    requires forall k :: 0 <= k < |entries| ==> entries[k].id == 0
    ensures TaggedIn(entries) == 0
  {
    if entries != [] { UntaggedEntries(entries[1..]); }
  }

  /** Before the first tagged write. */
  predicate Legacy(w: World) {
    && w.q.lastId == 0 && w.q.ackedId == 0 && w.accepted == 0 && w.acked == []
    && (forall k :: 0 <= k < |w.q.entries| ==> w.q.entries[k].id == 0)
    && forall k :: 0 <= k < |w.retired| ==> w.retired[k] == 0
  }

  /** From the first tagged write on: one slot, and every tagged result but a retained one has been
      acknowledged, in order. */
  predicate StopAndWait(w: World) {
    && |w.q.entries| <= 1 && (w.q.entries != [] ==> w.q.entries[0].id != 0)
    && (w.q.pending ==> w.q.entries == [] && w.retired != [] && w.q.lastId == w.retired[|w.retired| - 1] != 0)
    && w.acked == TaggedResults(w.retired, if w.q.pending then |w.retired| - 1 else |w.retired|)
    && (w.acked != [] ==> w.acked[|w.acked| - 1] == if w.q.pending then |w.retired| - 1 else |w.retired|)
    && w.accepted == |w.acked| + Outstanding(w.q)
  }

  /** The record of the last acknowledgement names the last acknowledged result. */
  predicate AckRecord(w: World) {
    && (w.q.ackedId == 0 <==> w.acked == [])
    && (w.acked != [] ==>
          var n := w.acked[|w.acked| - 1];
          1 <= n <= |w.retired| && w.q.ackedId == w.retired[n - 1] && w.q.ackedSequence == n % WRAP)
  }

  predicate Inv(w: World) {
    && w.q.sequence == |w.retired| % WRAP
    && (w.q.tagged ==> StopAndWait(w)) && (!w.q.tagged ==> Legacy(w)) && AckRecord(w)
    && (w.q.pending ==> w.q.lastResult != NoResult)
    && forall k :: 0 <= k < |w.q.entries| && w.q.entries[k].finished ==> w.q.entries[k].result != NoResult
  }

  // ----- Every step keeps the invariant

  /** A tagged write enters an empty queue only, and clears a legacy result. */
  lemma TaggedEnters(q: Queue, id: nat, c: Command, permitted: bool, known: bool)
    requires id != 0 && Admit(q, id, c, permitted, known).0 != q
    ensures q.entries == [] && !(q.pending && q.lastId != 0)
    ensures Admit(q, id, c, permitted, known).0 ==
            q.(entries := [Fresh(id, c)], tagged := true, pending := false,
               lastResult := if q.pending then NoResult else q.lastResult,
               lastCleanup := if q.pending then NoResult else q.lastCleanup)
  {
  }

  lemma WriteKeeps(en: Errno, w: World, id: nat, c: Command, permitted: bool, known: bool)
    requires Inv(w)
    ensures Inv(Next(en, w, WriteStep(id, c, permitted, known)))
  {
    var q := Admit(w.q, id, c, permitted, known).0;
    if q != w.q && id != 0 {
      TaggedEnters(w.q, id, c, permitted, known);
      assert TaggedIn(q.entries) == 1 + TaggedIn(q.entries[1..]);
      if !w.q.tagged { NoneTagged(w.retired, |w.retired|); }
    }
  }

  lemma FinishKeeps(en: Errno, w: World, p: Report)
    requires Inv(w)
    ensures Inv(Next(en, w, FinishStep(p)))
  {
    OutcomeFaithful(en, p);
    var q := Next(en, w, FinishStep(p)).q;
    if q != w.q {
      assert q.entries[1..] == w.q.entries[1..];
      assert TaggedIn(q.entries) == TaggedIn(w.q.entries);
    }
  }

  lemma RetireKeeps(en: Errno, w: World)
    requires Inv(w)
    ensures Inv(Next(en, w, RetireStep))
  {
    if w.q.entries != [] && w.q.entries[0].finished {
      var id := w.q.entries[0].id;
      var v := Next(en, w, RetireStep);
      assert v.q.entries == w.q.entries[1..];
      SequenceStep(|w.retired|);
      TaggedResultsPrefix(w.retired, id, |w.retired|);
    }
  }

  lemma SequenceStep(n: nat)
    ensures (n % WRAP + 1) % WRAP == (n + 1) % WRAP
  {
  }

  lemma AckKeeps(en: Errno, w: World, id: nat, data: nat)
    requires Inv(w)
    ensures Inv(Next(en, w, AckStep(id, data)))
  {
  }

  lemma StepKeeps(en: Errno, w: World, s: Step)
    requires Inv(w)
    ensures Inv(Next(en, w, s))
  {
    match s
    case WriteStep(id, c, permitted, known) => WriteKeeps(en, w, id, c, permitted, known);
    case FinishStep(p) => FinishKeeps(en, w, p);
    case RetireStep => RetireKeeps(en, w);
    case AckStep(id, data) => AckKeeps(en, w, id, data);
  }

  lemma {:induction false} RunKeeps(en: Errno, w: World, steps: seq<Step>)
    requires Inv(w)
    ensures Inv(Run(en, w, steps))
  {
    if steps != [] {
      RunKeeps(en, w, steps[..|steps| - 1]);
      StepKeeps(en, Run(en, w, steps[..|steps| - 1]), steps[|steps| - 1]);
    }
  }

  // ----- The protocol's promises

  function Ids(entries: seq<Entry>): (ids: seq<nat>)
    ensures |ids| == |entries|
  {
    seq(|entries|, i requires 0 <= i < |entries| => entries[i].id)
  }

  lemma OrderKept(en: Errno, w: World, s: Step)
    requires w.entered == w.retired + Ids(w.q.entries)
    ensures var v := Next(en, w, s); v.entered == v.retired + Ids(v.q.entries)
  {
    var v := Next(en, w, s);
    match s
    case WriteStep(id, _, _, _) => assert v != w ==> Ids(v.q.entries) == Ids(w.q.entries) + [id];
    case FinishStep(_) => assert Ids(v.q.entries) == Ids(w.q.entries);
    case RetireStep => assert v != w ==> Ids(w.q.entries) == [w.q.entries[0].id] + Ids(v.q.entries);
    case AckStep(_, _) =>
  }

  /** Commands, tagged or not, are retired in the order in which they entered, each once. */
  lemma {:induction false} InOrder(en: Errno, steps: seq<Step>)
    ensures var w := Run(en, Start(), steps); w.entered == w.retired + Ids(w.q.entries)
  {
    if steps != [] {
      InOrder(en, steps[..|steps| - 1]);
      OrderKept(en, Run(en, Start(), steps[..|steps| - 1]), steps[|steps| - 1]);
    }
  }

  // ----- What is retained for the host

  /** The commands in the queue are the last ones that entered, and only the head can have run. */
  predicate QueueKept(w: World) {
    && |w.entered| == |w.commands| == |w.retired| + |w.q.entries|
    && (forall i :: 0 <= i < |w.q.entries| ==>
          && w.q.entries[i].id == w.entered[|w.retired| + i]
          && w.q.entries[i].command == w.commands[|w.retired| + i]
          && (i > 0 ==> !w.q.entries[i].finished))
  }

  predicate HeadFinished(q: Queue) { q.entries != [] && q.entries[0].finished }

  predicate ReportsKept(en: Errno, w: World) {
    && |w.reports| == |w.retired| + (if HeadFinished(w.q) then 1 else 0)
    && (HeadFinished(w.q) ==>
          var p := w.reports[|w.retired|];
          w.q.entries[0].result == Outcome(en, p) && w.q.entries[0].cleanup == CleanupLatched(en, p.cleanups))
  }

  /** The retained result is that of the last command retired. */
  predicate ResultKept(en: Errno, w: World) {
    && (!w.q.pending ==> w.q.lastResult == NoResult && w.q.lastCleanup == NoResult)
    && (w.q.pending ==>
          var n := |w.retired|;
          && 1 <= n <= |w.entered| && n <= |w.commands| && n <= |w.reports|
          && w.q.lastId == w.entered[n - 1] && w.q.lastCommand == w.commands[n - 1]
          && w.q.lastResult == Outcome(en, w.reports[n - 1])
          && w.q.lastCleanup == CleanupLatched(en, w.reports[n - 1].cleanups))
  }

  predicate Kept(en: Errno, w: World) { QueueKept(w) && ReportsKept(en, w) && ResultKept(en, w) }

  lemma KeptByWrite(en: Errno, w: World, id: nat, c: Command, permitted: bool, known: bool)
    requires Kept(en, w)
    ensures Kept(en, Next(en, w, WriteStep(id, c, permitted, known)))
  {
    var v := Next(en, w, WriteStep(id, c, permitted, known));
    if v != w {
      assert v.q.entries == w.q.entries + [Fresh(id, c)];
      assert HeadFinished(v.q) == HeadFinished(w.q);
    }
  }

  lemma KeptByFinish(en: Errno, w: World, p: Report)
    requires Kept(en, w)
    ensures Kept(en, Next(en, w, FinishStep(p)))
  {
    var v := Next(en, w, FinishStep(p));
    if v != w {
      assert forall i :: 0 < i < |v.q.entries| ==> v.q.entries[i] == w.q.entries[i];
    }
  }

  lemma KeptByRetire(en: Errno, w: World)
    requires Kept(en, w)
    ensures Kept(en, Next(en, w, RetireStep))
  {
    var v := Next(en, w, RetireStep);
    if v != w {
      assert forall i :: 0 <= i < |v.q.entries| ==> v.q.entries[i] == w.q.entries[i + 1];
      assert !HeadFinished(v.q);
    }
  }

  lemma KeptStep(en: Errno, w: World, s: Step)
    requires Kept(en, w)
    ensures Kept(en, Next(en, w, s))
  {
    match s
    case WriteStep(id, c, permitted, known) => KeptByWrite(en, w, id, c, permitted, known);
    case FinishStep(p) => KeptByFinish(en, w, p);
    case RetireStep => KeptByRetire(en, w);
    case AckStep(id, data) =>
  }

  lemma {:induction false} KeptRun(en: Errno, steps: seq<Step>)
    ensures Kept(en, Run(en, Start(), steps))
  {
    if steps != [] {
      KeptRun(en, steps[..|steps| - 1]);
      KeptStep(en, Run(en, Start(), steps[..|steps| - 1]), steps[|steps| - 1]);
    }
  }

  /** What a host reads: no result unless one is retained; a retained one belongs to the last command
      retired, and says Success exactly if nothing went wrong while that command ran, or else its
      first error; the cleanup class is its first cleanup error. */
  lemma RetainedResult(en: Errno, w: World)
    requires Reachable(en, w)
    ensures w.q.pending <==> w.q.lastResult != NoResult
    ensures w.q.pending ==>
              var n := |w.retired|;
              && 1 <= n <= |w.entered| && n <= |w.commands| && n <= |w.reports|
              && w.q.lastId == w.retired[n - 1] == w.entered[n - 1] && w.q.lastCommand == w.commands[n - 1]
              && var p := w.reports[n - 1];
                 && (w.q.lastResult == Success <==> AllWell(p))
                 && (forall k :: FirstError(p.statuses, k) ==> w.q.lastResult == FromStatus(en, p.statuses[k]))
                 && (NoError(p.statuses) && !AllWell(p) ==> w.q.lastResult == Internal)
                 && (w.q.lastCleanup == Success <==> NoError(p.cleanups))
                 && (forall k :: FirstError(p.cleanups, k) ==> w.q.lastCleanup == FromStatus(en, p.cleanups[k]))
  {
    var steps :| w == Run(en, Start(), steps);
    KeptRun(en, steps);
    InOrder(en, steps);
    if w.q.pending {
      var p := w.reports[|w.retired| - 1];
      OutcomeFaithful(en, p);
      LatchedFirst(en, NoResult, p.cleanups);
      ErrorOrNone(p.cleanups);
    }
  }

  /** When a write enters the queue: an untagged one before any tagged one and while there is room, a
      tagged one when nothing is queued, no tagged result is retained and its id is not the last
      one's. */
  lemma EntersExactly(en: Errno, w: World, id: nat, c: Command, permitted: bool, known: bool)
    requires Reachable(en, w)
    ensures var v := Next(en, w, WriteStep(id, c, permitted, known));
            if permitted && known
               && (if id == 0 then !w.q.tagged && |w.q.entries| < QUEUE_DEPTH
                   else w.q.entries == [] && Outstanding(w.q) == 0 && id != w.q.lastId)
            then v.q.entries == w.q.entries + [Fresh(id, c)] && v.entered == w.entered + [id]
            else v == w
  {
    Reached(en, w);
    if id != 0 && w.q.entries == [] { assert FindQueued(w.q.entries, id, c) == Absent; }
  }

  /** The id of the tagged command in the queue, or of the last one retired. */
  predicate KnownId(q: Queue, id: nat) { id != 0 && ((q.entries != [] && q.entries[0].id == id) || q.lastId == id) }

  /** The command it stands for. */
  function CommandOf(q: Queue, id: nat): Command
    requires KnownId(q, id)
  {
    if q.entries != [] && q.entries[0].id == id then q.entries[0].command else q.lastCommand
  }

  /** How a write is answered: accepted if it enters or repeats a known one, turned away as full when
      only the queue is in its way, and rejected otherwise. */
  lemma AnsweredExactly(en: Errno, w: World, id: nat, c: Command, permitted: bool, known: bool)
    requires Reachable(en, w)
    ensures var (q, a) := Admit(w.q, id, c, permitted, known);
            && (a == Accepted <==> q != w.q || (permitted && KnownId(w.q, id) && CommandOf(w.q, id) == c))
            && (a == QueueFull <==>
                  permitted && (if id == 0 then known && !w.q.tagged && |w.q.entries| >= 16
                                else !KnownId(w.q, id) && (w.q.entries != [] || Outstanding(w.q) == 1)))
  {
    Reached(en, w);
    if id != 0 { LooksUp(w, id, c); }
  }

  lemma LooksUp(w: World, id: nat, c: Command)
    requires Inv(w) && id != 0
    ensures FindTransaction(w.q, id, c) ==
            if !KnownId(w.q, id) then Absent else if CommandOf(w.q, id) == c then Same else Different
    ensures TaggedWriteAllowed(|w.q.entries|, w.q.pending, w.q.lastId) <==> w.q.entries == [] && Outstanding(w.q) != 1
  {
    if !w.q.tagged {
      NoneQueued(w.q.entries, id, c);
    } else if w.q.entries != [] {
      assert w.q.entries[1..] == [];
      assert FindQueued(w.q.entries[1..], id, c) == Absent;
    }
  }

  lemma {:induction false} NoneQueued(entries: seq<Entry>, id: nat, c: Command)
    requires id != 0 && forall k :: 0 <= k < |entries| ==> entries[k].id == 0
    ensures FindQueued(entries, id, c) == Absent && TaggedIn(entries) == 0
  {
    if entries != [] { NoneQueued(entries[1..], id, c); }
  }

  /** In every reachable state at most one tagged command is queued or waits for its acknowledgement,
      every accepted one is either acknowledged or that one, and the results acknowledged so far are
      all the tagged results in order, save a retained last one. */
  lemma Accounting(en: Errno, w: World)
    requires Reachable(en, w)
    ensures Outstanding(w.q) <= 1
    ensures w.accepted == |w.acked| + Outstanding(w.q)
    ensures var waiting := w.q.pending && w.q.lastId != 0;
            (waiting ==> w.retired != []) &&
            w.acked == TaggedResults(w.retired, if waiting then |w.retired| - 1 else |w.retired|)
  {
    var steps :| w == Run(en, Start(), steps);
    RunKeeps(en, Start(), steps);
    if !w.q.tagged {
      UntaggedEntries(w.q.entries);
      NoneTagged(w.retired, |w.retired|);
    } else if w.q.entries != [] {
      assert TaggedIn(w.q.entries) == 1 + TaggedIn(w.q.entries[1..]);
    }
  }

  /** The acknowledgement a host sends for the n-th result. */
  function AckFor(w: World, n: nat): Step
    requires 1 <= n <= |w.retired|
  {
    AckStep(w.retired[n - 1], n % WRAP)
  }

  lemma ConsecutiveDiffer(n: nat)
    requires n >= 1
    ensures (n - 1) % WRAP != n % WRAP
  {
  }

  lemma SameSequence(m: nat, n: nat)
    requires n <= m
    ensures m % WRAP == n % WRAP <==> (m - n) % WRAP == 0
  {
    var k := (m - n) / WRAP;
    assert m == n + (m - n) % WRAP + k * WRAP;
    SameRemainder(n + (m - n) % WRAP, k);
  }

  lemma SameRemainder(a: nat, k: nat)
    ensures (a + k * WRAP) % WRAP == a % WRAP
  {
    if k > 0 {
      assert a + k * WRAP == a + (k - 1) * WRAP + WRAP;
      SameRemainder(a, k - 1);
    }
  }

  /** However late, repeated or reordered: the acknowledgement of the n-th result consumes the
      retained result exactly when that one is tagged, carries the same id, and is a multiple of 2^32
      results later. */
  lemma AckConsumes(en: Errno, w: World, n: nat)
    requires Reachable(en, w) && 1 <= n <= |w.retired|
    ensures var v := Next(en, w, AckFor(w, n));
            if w.q.pending && w.retired[n - 1] == w.q.lastId != 0 && (|w.retired| - n) % WRAP == 0
            then v.acked == w.acked + [|w.retired|] && !v.q.pending
            else v == w
  {
    Reached(en, w);
    SameSequence(|w.retired|, n);
    AckTakes(w, w.retired[n - 1], n % WRAP);
  }

  lemma AckTakes(w: World, id: nat, data: nat)
    requires Inv(w) && data < WRAP
    ensures var q := Acknowledge(w.q, id, data).0;
            if w.q.pending && id == w.q.lastId != 0 && data == w.q.sequence then q != w.q && !q.pending else q == w.q
  {
    if w.q.pending && w.q.lastId != 0 { ConsecutiveDiffer(|w.retired|); }
  }

  /** With fewer than 2^32 results, an acknowledgement consumes only the result it names. */
  lemma AckNamesItsResult(en: Errno, w: World, n: nat)
    requires Reachable(en, w) && 1 <= n <= |w.retired| < WRAP
    ensures var v := Next(en, w, AckFor(w, n));
            v != w <==> n == |w.retired| && w.q.pending && w.q.lastId != 0
  {
    AckConsumes(en, w, n);
    Reached(en, w);
    if n < |w.retired| { assert 0 < |w.retired| - n < WRAP; }
  }

  /** And it is answered exactly if that result is the retained one, or the last one consumed. */
  lemma AckAnswered(en: Errno, w: World, n: nat)
    requires Reachable(en, w) && 1 <= n <= |w.retired| < WRAP
    ensures Acknowledge(w.q, w.retired[n - 1], n).1 <==>
              && w.retired[n - 1] != 0
              && ((w.q.pending && n == |w.retired|) || (w.acked != [] && n == w.acked[|w.acked| - 1]))
  {
    Reached(en, w);
    AckReply(w, w.retired[n - 1], n);
    SmallSequence(|w.retired|);
    if w.acked != [] { SmallSequence(w.acked[|w.acked| - 1]); }
  }

  lemma AckReply(w: World, id: nat, data: nat)
    requires Inv(w) && data < WRAP
    ensures Acknowledge(w.q, id, data).1 <==>
              id != 0 && ((w.q.pending && w.q.lastId == id && w.q.sequence == data) || (w.q.ackedId == id && w.q.ackedSequence == data))
  {
  }

  lemma SmallSequence(n: nat)
    requires n < WRAP
    ensures n % WRAP == n
  {
  }

  lemma Reached(en: Errno, w: World)
    requires Reachable(en, w)
    ensures Inv(w)
  {
    var steps :| w == Run(en, Start(), steps);
    RunKeeps(en, Start(), steps);
  }

  /** The retained result is never stuck: its own acknowledgement is answered, frees the slot, and
      the next new command is then taken. */
  lemma SlotIsFreed(en: Errno, w: World, id: nat, c: Command)
    requires Reachable(en, w) && w.q.pending && w.q.lastId != 0 && id != 0 && id != w.q.lastId
    ensures var (q, answered) := Acknowledge(w.q, w.q.lastId, w.q.sequence);
            && answered && Outstanding(q) == 0
            && Admit(w.q, id, c, true, true) == (w.q, QueueFull)
            && Admit(q, id, c, true, true).1 == Accepted && Admit(q, id, c, true, true).0.entries == [Fresh(id, c)]
  {
    Reached(en, w);
    ConsecutiveDiffer(|w.retired|);
  }

  /** A command that has been accepted is still known. */
  predicate Remembers(q: Queue, id: nat, c: Command) {
    && q.tagged && id != 0
    && ((|q.entries| == 1 && q.entries[0].id == id && q.entries[0].command == c)
        || (q.entries == [] && q.lastId == id && q.lastCommand == c))
  }

  lemma RememberedStep(en: Errno, w: World, s: Step, id: nat, c: Command)
    requires Inv(w) && Remembers(w.q, id, c)
    ensures var v := Next(en, w, s);
            v.accepted >= w.accepted && (v.accepted == w.accepted ==> Remembers(v.q, id, c))
  {
  }

  lemma {:induction false} RememberedRun(en: Errno, w: World, steps: seq<Step>, id: nat, c: Command)
    requires Inv(w) && Remembers(w.q, id, c)
    ensures var v := Run(en, w, steps);
            v.accepted >= w.accepted && (v.accepted == w.accepted ==> Remembers(v.q, id, c))
  {
    if steps != [] {
      var before := steps[..|steps| - 1];
      RememberedRun(en, w, before, id, c);
      RunKeeps(en, w, before);
      var u := Run(en, w, before);
      if u.accepted == w.accepted {
        RememberedStep(en, u, steps[|steps| - 1], id, c);
      } else {
        AcceptedGrows(en, u, steps[|steps| - 1]);
      }
    }
  }

  lemma AcceptedGrows(en: Errno, w: World, s: Step)
    ensures Next(en, w, s).accepted >= w.accepted
  {
  }

  /** A lost reply is safe to retry: once a tagged write has entered the queue, and until another one
      does, repeating it is accepted and changes nothing, whether the command is still queued, running,
      retired or acknowledged; the same id with another command is refused. */
  lemma RetryIsHarmless(en: Errno, w: World, id: nat, c: Command, steps: seq<Step>, again: Command, known: bool)
    requires Reachable(en, w) && id != 0
    requires Admit(w.q, id, c, true, true).0 != w.q
    requires var u := Next(en, w, WriteStep(id, c, true, true)); Run(en, u, steps).accepted == u.accepted
    ensures var u := Next(en, w, WriteStep(id, c, true, true));
            var v := Run(en, u, steps);
            Admit(v.q, id, again, true, known) == (v.q, if again == c then Accepted else Rejected)
  {
    Reached(en, w);
    var u := Next(en, w, WriteStep(id, c, true, true));
    WriteKeeps(en, w, id, c, true, true);
    RememberedRun(en, u, steps, id, c);
    var v := Run(en, u, steps);
    if v.q.entries != [] { assert FindQueued(v.q.entries, id, again) != Absent; }
  }

  // ----- Past 2^32 results

  function Clean(): Report { Report([], true, []) }

  /** A write that runs without error and is retired. */
  function Writes(en: Errno, w: World, id: nat): World {
    var c := Command(0, 0, 0);
    Next(en, Next(en, Next(en, w, WriteStep(id, c, true, true)), FinishStep(Clean())), RetireStep)
  }

  predicate Free(w: World) { Inv(w) && w.q.entries == [] && !w.q.pending }

  lemma WritesRetires(en: Errno, w: World, id: nat)
    requires Free(w) && id != 0 && w.q.lastId != id
    ensures var v := Writes(en, w, id);
            Inv(v) && v.retired == w.retired + [id] && v.q.pending && v.q.lastId == id
  {
    var c := Command(0, 0, 0);
    WriteKeeps(en, w, id, c, true, true);
    var a := Next(en, w, WriteStep(id, c, true, true));
    assert a.q.entries == [Fresh(id, c)];
    FinishKeeps(en, a, Clean());
    var b := Next(en, a, FinishStep(Clean()));
    assert |b.q.entries| == 1 && b.q.entries[0].finished && b.q.entries[0].id == id;
    RetireKeeps(en, b);
  }

  lemma AcknowledgedFrees(en: Errno, w: World)
    requires Inv(w) && w.q.pending && w.q.lastId != 0
    ensures var v := Next(en, w, AckStep(w.q.lastId, w.q.sequence));
            Free(v) && v.retired == w.retired && v.q.lastId == w.q.lastId
  {
    AckKeeps(en, w, w.q.lastId, w.q.sequence);
    ConsecutiveDiffer(|w.retired|);
  }

  lemma OneMore(en: Errno, w: World, s: Step)
    requires Reachable(en, w)
    ensures Reachable(en, Next(en, w, s))
  {
    var steps :| w == Run(en, Start(), steps);
    assert (steps + [s])[..|steps|] == steps;
    assert Next(en, w, s) == Run(en, Start(), steps + [s]);
  }

  lemma WritesReachable(en: Errno, w: World, id: nat)
    requires Reachable(en, w)
    ensures Reachable(en, Writes(en, w, id))
  {
    var c := Command(0, 0, 0);
    OneMore(en, w, WriteStep(id, c, true, true));
    var a := Next(en, w, WriteStep(id, c, true, true));
    OneMore(en, a, FinishStep(Clean()));
    OneMore(en, Next(en, a, FinishStep(Clean())), RetireStep);
  }

  /** One whole transaction more. */
  lemma Transaction(en: Errno, w: World, id: nat) returns (v: World)
    requires Reachable(en, w) && Free(w) && id != 0 && w.q.lastId != id
    ensures Reachable(en, v) && Free(v) && v.q.lastId == id && v.retired == w.retired + [id]
  {
    var u := Writes(en, w, id);
    WritesReachable(en, w, id);
    WritesRetires(en, w, id);
    AcknowledgedFrees(en, u);
    OneMore(en, u, AckStep(u.q.lastId, u.q.sequence));
    v := Next(en, u, AckStep(u.q.lastId, u.q.sequence));
  }

  /** k pairs of transactions with ids 1 and 2. */
  lemma {:induction false} Laps(en: Errno, k: nat) returns (w: World)
    ensures Reachable(en, w) && Free(w) && |w.retired| == 2 * k && w.q.lastId == (if k == 0 then 0 else 2)
    ensures k > 0 ==> w.retired[0] == 1
  {
    if k == 0 {
      w := Start();
      assert w == Run(en, Start(), []);
    } else {
      var v := Laps(en, k - 1);
      v := Transaction(en, v, 1);
      w := Transaction(en, v, 2);
    }
  }

  /** The bound is needed: after half of 2^32 pairs and one more result, the acknowledgement of the
      very first result consumes the newest one. */
  lemma LateAckAfterWrap(en: Errno, half: nat) returns (w: World)
    requires 2 * half == WRAP
    ensures Reachable(en, w) && |w.retired| == WRAP + 1
    ensures Next(en, w, AckFor(w, 1)).acked == w.acked + [WRAP + 1]
  {
    var v := Laps(en, half);
    WritesReachable(en, v, 1);
    WritesRetires(en, v, 1);
    w := Writes(en, v, 1);
    assert w.retired[0] == v.retired[0];
    AckConsumes(en, w, 1);
  }
}
