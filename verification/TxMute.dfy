/** Muting a transmit channel by attenuation, with the old attenuation kept in a cache, when reads
    and writes of the transceiver may fail. */
module TxMute {

  const MUTED_ATTEN: nat := 89750

  datatype Channel = Tx1 | Tx2 | NotTx

  /** One TX channel: the attenuation in the hardware and the driver's record of it. */
  datatype Tx = Tx(atten: nat, muted: bool, mutedValid: bool, cached: nat, cachedValid: bool)

  /** A write is done, is refused, or is done and yet reported as failed. */
  datatype Write = Done | Refused | DoneButFailed

  datatype Status = Ok | Invalid | ReadFailed | WriteFailed | Unexpected

  /** A request on a channel, with how the transceiver answers a read and a write during it. */
  datatype Call = Call(ch: Channel, state: bool, readOk: bool, write: Write)

  datatype Phy = Phy(tx1: Tx, tx2: Tx)

  function Get(p: Phy, ch: Channel): Tx
    requires ch != NotTx
  {
    if ch == Tx1 then p.tx1 else p.tx2
  }

  // ----- What one call does to its channel

  /** The attenuation to remember, or why there is none. */
  function ToCache(t: Tx, c: Call): (Status, nat) {
    if !c.state && t.cachedValid then (Ok, t.cached)
    else if !c.readOk then (ReadFailed, 0)
    else if t.atten != MUTED_ATTEN then (Ok, t.atten)
    else if t.cachedValid then (Ok, t.cached)
    else (Unexpected, 0)
  }

  function SetTx(t: Tx, c: Call): (Tx, Status) {
    if t.mutedValid && t.muted == c.state then (t, Ok)
    else
      var (status, cached) := ToCache(t, c);
      if status != Ok then (t, status)
      else
        var written := if c.write == Refused then t else t.(atten := if c.state then MUTED_ATTEN else cached);
        if c.write != Done then (written.(mutedValid := false), WriteFailed)
        else (written.(cached := cached, cachedValid := true, muted := c.state, mutedValid := true), Ok)
  }

  function SetPhy(p: Phy, c: Call): (Phy, Status) {
    match c.ch
    case NotTx => (p, Invalid)
    case Tx1 => var (t, s) := SetTx(p.tx1, c); (p.(tx1 := t), s)
    case Tx2 => var (t, s) := SetTx(p.tx2, c); (p.(tx2 := t), s)
  }

  class Driver {
    var tx1: Tx
    var tx2: Tx

    constructor (p: Phy)
      ensures State() == p
    {
      tx1, tx2 := p.tx1, p.tx2;
    }

    function State(): Phy
      reads this
    {
      Phy(tx1, tx2)
    }

    method WriteAttenuation(ch: Channel, atten: nat, write: Write) returns (ok: bool)
      requires ch != NotTx
      modifies this
      ensures ok <==> write == Done
      ensures State() == if write == Refused then old(State())
                         else if ch == Tx1 then old(State()).(tx1 := old(tx1).(atten := atten))
                         else old(State()).(tx2 := old(tx2).(atten := atten))
    {
      if write != Refused {
        if ch == Tx1 {
          tx1 := tx1.(atten := atten);
        } else {
          tx2 := tx2.(atten := atten);
        }
      }
      ok := write == Done;
    }

    method SetCached(ch: Channel, atten: nat) returns (status: Status)
      modifies this
      ensures status == if ch == NotTx then Invalid else Ok
      ensures State() == match ch
                         case NotTx => old(State())
                         case Tx1 => old(State()).(tx1 := old(tx1).(cached := atten, cachedValid := true))
                         case Tx2 => old(State()).(tx2 := old(tx2).(cached := atten, cachedValid := true))
    {
      match ch
      case NotTx => return Invalid;
      case Tx1 => tx1 := tx1.(cached := atten, cachedValid := true); return Ok;
      case Tx2 => tx2 := tx2.(cached := atten, cachedValid := true); return Ok;
    }

    method SetRecord(ch: Channel, muted: bool, valid: bool)
      requires ch != NotTx
      modifies this
      ensures State() == if ch == Tx1 then old(State()).(tx1 := old(tx1).(muted := muted, mutedValid := valid))
                         else old(State()).(tx2 := old(tx2).(muted := muted, mutedValid := valid))
    {
      if ch == Tx1 {
        tx1 := tx1.(muted := muted, mutedValid := valid);
      } else {
        tx2 := tx2.(muted := muted, mutedValid := valid);
      }
    }

    /** `txmute_set`. */
    method Set(c: Call) returns (status: Status)
      modifies this
      ensures (State(), status) == SetPhy(old(State()), c)
    {
      if c.ch == NotTx {
        return Invalid;
      }
      var t := Get(State(), c.ch);
      if t.mutedValid && t.muted == c.state {
        return Ok;
      }
      var cached: nat;
      var atten: nat;
      if c.state {
        if !c.readOk {
          return ReadFailed;
        }
        if t.atten == MUTED_ATTEN {
          if !t.cachedValid {
            return Unexpected;
          }
          cached := t.cached;
        } else {
          cached := t.atten;
        }
        atten := MUTED_ATTEN;
      } else {
        if t.cachedValid {
          cached := t.cached;
        } else {
          if !c.readOk {
            return ReadFailed;
          }
          if t.atten == MUTED_ATTEN {
            return Unexpected;
          }
          cached := t.atten;
        }
        atten := cached;
      }
      var ok := WriteAttenuation(c.ch, atten, c.write);
      if !ok {
        SetRecord(c.ch, t.muted, false);
        return WriteFailed;
      }
      status := SetCached(c.ch, cached);
      SetRecord(c.ch, c.state, true);
    }
  }

  // ----- Runs

  /** A channel after the first n calls. */
  function Run(t: Tx, calls: seq<Call>, n: nat): Tx
    requires n <= |calls|
  {
    if n == 0 then t else SetTx(Run(t, calls, n - 1), calls[n - 1]).0
  }

  function RunPhy(p: Phy, calls: seq<Call>, n: nat): Phy
    requires n <= |calls|
  {
    if n == 0 then p else SetPhy(RunPhy(p, calls, n - 1), calls[n - 1]).0
  }

  /** The calls on one channel among the first n. */
  function On(calls: seq<Call>, ch: Channel, n: nat): seq<Call>
    requires n <= |calls|
  {
    if n == 0 then []
    else if calls[n - 1].ch == ch then On(calls, ch, n - 1) + [calls[n - 1]]
    else On(calls, ch, n - 1)
  }

  lemma {:induction false} RunPrefix(t: Tx, calls: seq<Call>, c: Call, n: nat)
    requires n <= |calls|
    ensures Run(t, calls + [c], n) == Run(t, calls, n)
  {
    if n > 0 { RunPrefix(t, calls, c, n - 1); }
  }

  /** A call changes its own channel only. */
  lemma OwnChannel(p: Phy, c: Call, ch: Channel)
    requires ch != NotTx
    ensures Get(SetPhy(p, c).0, ch) == if c.ch == ch then SetTx(Get(p, ch), c).0 else Get(p, ch)
  {
  }

  lemma RunOneMore(t: Tx, calls: seq<Call>, c: Call)
    ensures Run(t, calls + [c], |calls| + 1) == SetTx(Run(t, calls, |calls|), c).0
  {
    RunPrefix(t, calls, c, |calls|);
  }

  /** The channels are independent: each is driven by its own calls alone. */
  lemma {:induction false} Independent(p: Phy, calls: seq<Call>, ch: Channel, n: nat)
    requires ch != NotTx && n <= |calls|
    ensures var mine := On(calls, ch, n);
            Get(RunPhy(p, calls, n), ch) == Run(Get(p, ch), mine, |mine|)
  {
    if n > 0 {
      Independent(p, calls, ch, n - 1);
      var c, before := calls[n - 1], On(calls, ch, n - 1);
      if c.ch == ch {
        calc {
          Get(RunPhy(p, calls, n), ch);
          { OwnChannel(RunPhy(p, calls, n - 1), c, ch); }
          SetTx(Run(Get(p, ch), before, |before|), c).0;
          { RunOneMore(Get(p, ch), before, c); }
          Run(Get(p, ch), before + [c], |before| + 1);
        }
      } else {
        OwnChannel(RunPhy(p, calls, n - 1), c, ch);
      }
    }
  }

  /** Unmuted at v, with nothing recorded. */
  predicate Fresh(t: Tx, v: nat) { t.atten == v != MUTED_ATTEN && !t.mutedValid && !t.cachedValid }

  /** The hardware holds v or the mute value, and whatever is recorded is true. */
  predicate Sound(t: Tx, v: nat) {
    && v != MUTED_ATTEN && t.atten in {v, MUTED_ATTEN}
    && (t.cachedValid ==> t.cached == v)
    && (t.atten == MUTED_ATTEN ==> t.cachedValid)
    && (t.mutedValid ==> t.cachedValid && t.atten == if t.muted then MUTED_ATTEN else v)
  }

  /** What a caller may rely on. */
  predicate AnswerSound(t: Tx, c: Call, v: nat) {
    var (u, status) := SetTx(t, c);
    && status != Unexpected
    && (status == Ok ==> u.atten == if c.state then MUTED_ATTEN else v)
  }

  /** A mute that takes effect but is reported as failed, before anything was cached. */
  predicate Loses(t: Tx, c: Call) { c.state && c.readOk && c.write == DoneButFailed && !t.cachedValid }

  /** Muted with no memory of the attenuation. */
  predicate Lost(t: Tx) { t.atten == MUTED_ATTEN && !t.cachedValid && !t.mutedValid }

  lemma CallSound(t: Tx, c: Call, v: nat)
    requires Sound(t, v)
    ensures AnswerSound(t, c, v)
    ensures if Loses(t, c) then Lost(SetTx(t, c).0) else Sound(SetTx(t, c).0, v)
  {
  }

  lemma LostStays(t: Tx, c: Call)
    requires Lost(t)
    ensures SetTx(t, c) == (t, if c.readOk then Unexpected else ReadFailed)
  {
  }

  predicate LosesAt(t: Tx, calls: seq<Call>, k: nat)
    requires k < |calls|
  {
    Loses(Run(t, calls, k), calls[k])
  }

  predicate SucceedsAt(t: Tx, calls: seq<Call>, k: nat)
    requires k < |calls|
  {
    SetTx(Run(t, calls, k), calls[k]).1 == Ok
  }

  /** One of the first n calls lost the attenuation. */
  ghost predicate LostBy(t: Tx, calls: seq<Call>, n: nat)
    requires n <= |calls|
  {
    exists k :: 0 <= k < n && LosesAt(t, calls, k)
  }

  /** One of the first n calls succeeded. */
  ghost predicate SucceededBy(t: Tx, calls: seq<Call>, n: nat)
    requires n <= |calls|
  {
    exists k :: 0 <= k < n && SucceedsAt(t, calls, k)
  }

  /** Only a success fills the cache. */
  lemma CachedBySuccess(t: Tx, c: Call)
    requires t.mutedValid ==> t.cachedValid
    ensures SetTx(t, c).0.cachedValid <==> t.cachedValid || SetTx(t, c).1 == Ok
  {
  }

  lemma LostNext(t: Tx, calls: seq<Call>, n: nat)
    requires n < |calls|
    ensures LostBy(t, calls, n + 1) <==> LostBy(t, calls, n) || LosesAt(t, calls, n)
  {
  }

  lemma SucceededNext(t: Tx, calls: seq<Call>, n: nat)
    requires n < |calls|
    ensures SucceededBy(t, calls, n + 1) <==> SucceededBy(t, calls, n) || SucceedsAt(t, calls, n)
  {
  }

  /** After any run the channel is either sound or lost; it is lost exactly when some mute, before the
      first success on the channel, took effect although it was reported as failed. */
  lemma {:induction false} SoundUnlessLost(t: Tx, v: nat, calls: seq<Call>, n: nat)
    requires Fresh(t, v) && n <= |calls|
    ensures if LostBy(t, calls, n) then Lost(Run(t, calls, n)) else Sound(Run(t, calls, n), v)
  {
    if n > 0 {
      SoundUnlessLost(t, v, calls, n - 1);
      LostNext(t, calls, n - 1);
      if LostBy(t, calls, n - 1) {
        LostStays(Run(t, calls, n - 1), calls[n - 1]);
      } else {
        CallSound(Run(t, calls, n - 1), calls[n - 1], v);
      }
    }
  }

  /** So a caller knows when the channel is past that danger: after its first success. */
  lemma {:induction false} CachedIffSucceeded(t: Tx, v: nat, calls: seq<Call>, n: nat)
    requires Fresh(t, v) && n <= |calls|
    ensures Run(t, calls, n).cachedValid <==> SucceededBy(t, calls, n)
  {
    if n > 0 {
      CachedIffSucceeded(t, v, calls, n - 1);
      SucceededNext(t, calls, n - 1);
      SoundUnlessLost(t, v, calls, n - 1);
      CachedBySuccess(Run(t, calls, n - 1), calls[n - 1]);
    }
  }

  // ----- The answers, from what the caller saw

  datatype Belief = Unknown | Muted | Unmuted

  function Believe(state: bool): Belief { if state then Muted else Unmuted }

  /** What the caller may believe after n calls: the state of the last call that succeeded, unless a
      write has failed since. */
  function Believed(t: Tx, calls: seq<Call>, n: nat): Belief
    requires n <= |calls|
  {
    if n == 0 then Unknown
    else
      var status := SetTx(Run(t, calls, n - 1), calls[n - 1]).1;
      if status == Ok then Believe(calls[n - 1].state)
      else if status == WriteFailed then Unknown
      else Believed(t, calls, n - 1)
  }

  /** The answer to a call: nothing to do if the state is believed already; a mute, and any call before
      the first success, depends on a read; then the write decides. */
  function Expected(belief: Belief, succeeded: bool, c: Call): Status {
    if belief == Believe(c.state) then Ok
    else if (c.state || !succeeded) && !c.readOk then ReadFailed
    else if c.write == Done then Ok
    else WriteFailed
  }

  /** The attenuation afterwards: the one asked for, if the call succeeded or its write took effect. */
  function ExpectedAtten(before: nat, status: Status, c: Call, v: nat): nat {
    if status == Ok || (status == WriteFailed && c.write == DoneButFailed)
    then (if c.state then MUTED_ATTEN else v)
    else before
  }

  /** The record is what the caller believes. */
  predicate RecordIs(t: Tx, belief: Belief) {
    belief == if t.mutedValid then Believe(t.muted) else Unknown
  }

  lemma RecordStep(t: Tx, c: Call, belief: Belief)
    requires RecordIs(t, belief)
    ensures var (u, status) := SetTx(t, c);
            RecordIs(u, if status == Ok then Believe(c.state) else if status == WriteFailed then Unknown else belief)
  {
  }

  lemma {:induction false} RecordBelieved(t: Tx, calls: seq<Call>, n: nat)
    requires !t.mutedValid && n <= |calls|
    ensures RecordIs(Run(t, calls, n), Believed(t, calls, n))
  {
    if n > 0 {
      RecordBelieved(t, calls, n - 1);
      RecordStep(Run(t, calls, n - 1), calls[n - 1], Believed(t, calls, n - 1));
    }
  }

  lemma SoundAnswer(t: Tx, belief: Belief, c: Call, v: nat)
    requires Sound(t, v) && RecordIs(t, belief)
    ensures var (u, status) := SetTx(t, c);
            status == Expected(belief, t.cachedValid, c) && u.atten == ExpectedAtten(t.atten, status, c, v)
  {
  }

  /** What any further call answers, on either channel and from what its caller saw. Without such a
      mute: exactly the expected status, with the attenuation that goes with it. With it: no call ever
      succeeds again and the hardware stays muted. */
  lemma EveryAnswer(p: Phy, calls: seq<Call>, c: Call, v: nat)
    requires c.ch != NotTx && Fresh(Get(p, c.ch), v)
    ensures var t0, t, mine := Get(p, c.ch), Get(RunPhy(p, calls, |calls|), c.ch), On(calls, c.ch, |calls|);
            var (u, status) := SetTx(t, c);
            if LostBy(t0, mine, |mine|)
            then u == t && status == (if c.readOk then Unexpected else ReadFailed) && t.atten == MUTED_ATTEN
            else
              && t.atten in {v, MUTED_ATTEN} && AnswerSound(t, c, v)
              && status == Expected(Believed(t0, mine, |mine|), SucceededBy(t0, mine, |mine|), c)
              && u.atten == ExpectedAtten(t.atten, status, c, v)
  {
    Independent(p, calls, c.ch, |calls|);
    var t0, mine := Get(p, c.ch), On(calls, c.ch, |calls|);
    var t := Run(t0, mine, |mine|);
    SoundUnlessLost(t0, v, mine, |mine|);
    if LostBy(t0, mine, |mine|) {
      LostStays(t, c);
    } else {
      CallSound(t, c, v);
      RecordBelieved(t0, mine, |mine|);
      CachedIffSucceeded(t0, v, mine, |mine|);
      SoundAnswer(t, Believed(t0, mine, |mine|), c, v);
    }
  }

  /** When a failed write never takes effect, no run loses the attenuation. */
  lemma RefusedWritesAreSafe(p: Phy, calls: seq<Call>, c: Call, v: nat)
    requires c.ch != NotTx && Fresh(Get(p, c.ch), v)
    requires forall k :: 0 <= k < |calls| ==> calls[k].write != DoneButFailed
    ensures var t0, t, mine := Get(p, c.ch), Get(RunPhy(p, calls, |calls|), c.ch), On(calls, c.ch, |calls|);
            var (u, status) := SetTx(t, c);
            && t.atten in {v, MUTED_ATTEN} && AnswerSound(t, c, v)
            && status == Expected(Believed(t0, mine, |mine|), SucceededBy(t0, mine, |mine|), c)
  {
    OnlyThese(calls, c.ch, |calls|);
    EveryAnswer(p, calls, c, v);
  }

  lemma {:induction false} OnlyThese(calls: seq<Call>, ch: Channel, n: nat)
    requires n <= |calls| && forall k :: 0 <= k < |calls| ==> calls[k].write != DoneButFailed
    ensures forall k :: 0 <= k < |On(calls, ch, n)| ==> On(calls, ch, n)[k].write != DoneButFailed
  {
    if n > 0 { OnlyThese(calls, ch, n - 1); }
  }

  /** The loss does happen: one such mute on a fresh channel, and the unmute after it is refused. */
  lemma LossExample(t: Tx)
    requires Fresh(t, 10000)
    ensures var mute, unmute := Call(Tx1, true, true, DoneButFailed), Call(Tx1, false, true, Done);
            var u := SetTx(t, mute).0;
            u.atten == MUTED_ATTEN && SetTx(u, unmute) == (u, Unexpected)
  {
  }
}
