/**
 The fate of every event, and the action that decides it. For each way an event can leave the pipeline:
 the actions, and only those, that make it leave that way, in every interleaving. And the law of the
 overflow: a batch that met no server, like a denial, is written to disk, event by event.
 */
module EventFates {
  import opened Wrappers
  import opened AuditBuffer
  import opened Pipeline
  import opened ReplayRaces
  import opened FlushAll

  /** The ways out that are decided by one answer. */
  datatype Way = Delivered | Dropped | Refused | Unwritten

  function WentBy(s: State, way: Way): seq<nat> {
    match way
    case Delivered => s.ledger.accepted
    case Dropped => s.ledger.dropped
    case Refused => s.ledger.capped
    case Unwritten => s.ledger.failed
  }

  /** The batch that the action hands to log_batch holds the event. */
  predicate SendsWith(s: State, a: Action, x: nat) {
    a.Send? && a.f < |s.flushers| && s.flushers[a.f].Sending? && x in s.flushers[a.f].batch
  }

  /** The line that the action tries to write is that of the event. */
  predicate AppendsIt(s: State, a: Action, x: nat) {
    a.Append? && a.f < |s.flushers| && Writes(s.flushers[a.f]) && NextId(s.flushers[a.f]) == x
  }

  /** The answer that decides an event's fate: of the server to its batch, or of the disk to its line. */
  predicate Decides(s: State, a: Action, way: Way, x: nat) {
    match way
    case Delivered => SendsWith(s, a, x) && a.reply == Accepted
    case Dropped => SendsWith(s, a, x) && a.reply in {ApiError, OtherError}
    case Refused => AppendsIt(s, a, x) && a.outcome == Capped
    case Unwritten => AppendsIt(s, a, x) && a.outcome == Failed
  }

  lemma WaysUntouched(s: State, a: Action)
    requires s.ring.Valid() && Enabled(s, a) && !a.Send? && !a.Append?
    ensures forall way :: WentBy(Do(s, a), way) == WentBy(s, way)
  {
    if !OfLoop(a) {
      match a
      case Unlink(f, ok) =>
      case _ =>
    }
  }

  lemma SendDecides(s: State, f: nat, reply: Reply, way: Way, x: nat)
    requires Enabled(s, Send(f, reply))
    ensures x in WentBy(SendBy(s, f, reply), way) <==> x in WentBy(s, way) || Decides(s, Send(f, reply), way, x)
  {
  }

  lemma AppendDecides(s: State, f: nat, outcome: WriteOutcome, way: Way, x: nat)
    requires Enabled(s, Append(f, outcome))
    ensures x in WentBy(AppendBy(s, f, outcome), way) <==> x in WentBy(s, way) || Decides(s, Append(f, outcome), way, x)
  {
    AppendMoves(s, f, outcome);
  }

  lemma FateStep(s: State, a: Action, way: Way, x: nat)
    requires s.ring.Valid() && Enabled(s, a)
    ensures x in WentBy(Do(s, a), way) <==> x in WentBy(s, way) || Decides(s, a, way, x)
  {
    if a.Send? {
      SendDecides(s, a.f, a.reply, way, x);
    } else if a.Append? {
      AppendDecides(s, a.f, a.outcome, way, x);
    } else {
      WaysUntouched(s, a);
    }
  }

  ghost predicate DecidedAt(states: seq<State>, actions: seq<Action>, m: nat, way: Way, x: nat)
    requires |states| == |actions| + 1
  {
    m < |actions| && Decides(states[m], actions[m], way, x)
  }

  lemma FateRecord(states: seq<State>, actions: seq<Action>, way: Way, x: nat)
    requires |states| == |actions| + 1 && x !in WentBy(states[0], way)
    requires forall m: nat :: m < |actions| ==>
               (x in WentBy(states[m + 1], way) <==> x in WentBy(states[m], way) || DecidedAt(states, actions, m, way, x))
    ensures x in WentBy(states[|actions|], way) <==> exists m: nat :: DecidedAt(states, actions, m, way, x)
  {
    var holds := (m: nat) => m <= |actions| && x in WentBy(states[m], way);
    var decided := (m: nat) => DecidedAt(states, actions, m, way, x);
    Accumulates(holds, decided, |actions|);
    assert forall m: nat :: decided(m) <==> DecidedAt(states, actions, m, way, x);
  }

  /**
   The exact fate of every event, over every interleaving. It is delivered exactly if a batch with it
   was accepted; dropped exactly if the server answered its batch with a status nobody expected, or
   something unforeseen happened; refused by a full file, or lost to a failing disk, exactly if its own
   line met that.
   */
  lemma FateExactlyWhen(n: nat, actions: seq<Action>, way: Way, x: nat)
    requires n >= 1 && CanRun(Init(n), actions)
    ensures x in WentBy(Run(Init(n), actions), way)
            <==> exists m: nat :: DecidedAt(Trace(Init(n), actions), actions, m, way, x)
  {
    var states := Trace(Init(n), actions);
    TraceEnds(Init(n), actions);
    forall m: nat | m < |actions|
      ensures x in WentBy(states[m + 1], way) <==> x in WentBy(states[m], way) || DecidedAt(states, actions, m, way, x)
    {
      TraceStep(Init(n), actions, m);
      FateStep(states[m], actions[m], way, x);
    }
    FateRecord(states, actions, way, x);
  }

  // ---------------------------------------------------------- evicted by the ring

  /** A push meets a full ring whose oldest event is this one. */
  ghost predicate PushesOut(s: State, a: Action, x: nat) {
    a.Push? && s.ring.Valid() && |s.ring.Contents()| == 1_000 && s.ring.Contents()[0] == x
  }

  lemma EvictedStep(s: State, a: Action, x: nat)
    requires s.ring.Valid() && Enabled(s, a)
    ensures Do(s, a).ring.Valid()
    ensures x in EvictedFrom(Do(s, a).ring) <==> x in EvictedFrom(s.ring) || PushesOut(s, a, x)
  {
    RingStaysValid(s, a);
    if a.Push? {
      PushSelects(s.ring, s.next);
    } else if a.Drain? {
      DrainSelects(s.ring, MAX_SEND_BATCH);
    } else {
      EventsUntouched(s, a);
    }
  }

  ghost predicate PushedOutAt(states: seq<State>, actions: seq<Action>, m: nat, x: nat)
    requires |states| == |actions| + 1
  {
    m < |actions| && PushesOut(states[m], actions[m], x)
  }

  ghost predicate IsEvicted(s: State, x: nat) {
    s.ring.Valid() && x in EvictedFrom(s.ring)
  }

  lemma EvictedRecord(states: seq<State>, actions: seq<Action>, x: nat)
    requires |states| == |actions| + 1 && !IsEvicted(states[0], x)
    requires forall m: nat :: m < |actions| ==>
               (IsEvicted(states[m + 1], x) <==> IsEvicted(states[m], x) || PushedOutAt(states, actions, m, x))
    ensures IsEvicted(states[|actions|], x) <==> exists m: nat :: PushedOutAt(states, actions, m, x)
  {
    var holds := (m: nat) => m <= |actions| && IsEvicted(states[m], x);
    var pushed := (m: nat) => PushedOutAt(states, actions, m, x);
    Accumulates(holds, pushed, |actions|);
    assert forall m: nat :: pushed(m) <==> PushedOutAt(states, actions, m, x);
  }

  /** An event is evicted exactly if it was the oldest of a thousand when another was pushed. */
  lemma EvictedExactlyWhen(n: nat, actions: seq<Action>, x: nat)
    requires n >= 1 && CanRun(Init(n), actions)
    ensures x in EvictedFrom(Run(Init(n), actions).ring)
            <==> exists m: nat :: PushedOutAt(Trace(Init(n), actions), actions, m, x)
  {
    var states := Trace(Init(n), actions);
    TraceEnds(Init(n), actions);
    forall m: nat | m < |actions|
      ensures IsEvicted(states[m + 1], x) <==> IsEvicted(states[m], x) || PushedOutAt(states, actions, m, x)
    {
      TraceStep(Init(n), actions, m);
      EvictedStep(states[m], actions[m], x);
    }
    EvictedRecord(states, actions, x);
  }

  // -------------------------------------------------------------- on its way to disk

  /** The thread is writing to disk, and the event is still to be written. */
  predicate ToBeWritten(s: State, f: nat, x: nat) {
    f < |s.flushers| && (s.flushers[f].Spilling? || s.flushers[f].Denying?) && x in HeldBy(s.flushers[f])
  }

  /** What becomes of the line that an append writes: on disk, in a deleted file, refused, or lost. */
  ghost predicate ComesOut(s: State, t: State, f: nat, outcome: WriteOutcome, x: nat)
    requires HasFile(s, f)
  {
    var day := s.flushers[f].fd.value.day;
    match outcome
    case Written => if IsStale(s, f, day) then x in t.ledger.orphaned else Line(x, day) in t.disk
    case Capped => x in t.ledger.capped
    case Failed => x in t.ledger.failed
  }

  predicate HasFile(s: State, f: nat) {
    f < |s.flushers| && Writes(s.flushers[f]) && s.flushers[f].fd.Some?
  }

  /** Action j writes the event's line, and it comes out as the disk answers. */
  ghost predicate WrittenAt(states: seq<State>, actions: seq<Action>, j: nat, f: nat, x: nat)
    requires |states| == |actions| + 1
  {
    j < |actions| && actions[j].Append? && actions[j].f == f && AppendsIt(states[j], actions[j], x)
    && HasFile(states[j], f) && ComesOut(states[j], states[j + 1], f, actions[j].outcome, x)
  }

  ghost predicate WrittenBetween(states: seq<State>, actions: seq<Action>, i: nat, k: nat, f: nat, x: nat)
    requires |states| == |actions| + 1
  {
    exists j: nat :: i <= j < k && WrittenAt(states, actions, j, f, x)
  }

  lemma AppendWrites(s: State, f: nat, outcome: WriteOutcome, x: nat)
    requires s.ring.Valid() && Enabled(s, Append(f, outcome)) && ToBeWritten(s, f, x)
    ensures var t := AppendBy(s, f, outcome);
            ToBeWritten(t, f, x) || (NextId(s.flushers[f]) == x && ComesOut(s, t, f, outcome, x))
  {
    AppendMoves(s, f, outcome);
    AppendEffect(s, f, outcome);
    var p := s.flushers[f];
    if NextId(p) != x {
      assert p.rest == [p.rest[0]] + p.rest[1..];
    }
  }

  lemma LoopLetsItWrite(s: State, a: Action, f: nat, x: nat)
    requires s.ring.Valid() && Enabled(s, a) && ToBeWritten(s, f, x) && OfLoop(a)
    ensures ToBeWritten(Do(s, a), f, x)
  {
  }

  lemma SendLetsItWrite(s: State, g: nat, reply: Reply, f: nat, x: nat)
    requires Enabled(s, Send(g, reply)) && ToBeWritten(s, f, x)
    ensures ToBeWritten(SendBy(s, g, reply), f, x)
  {
  }

  lemma AppendLetsItWrite(s: State, g: nat, outcome: WriteOutcome, f: nat, x: nat)
    requires Enabled(s, Append(g, outcome)) && ToBeWritten(s, f, x) && g != f
    ensures ToBeWritten(AppendBy(s, g, outcome), f, x)
  {
    AppendMoves(s, g, outcome);
  }

  /** This thread's phase, if it is writing, is changed only by its own opening and appending. */
  lemma OthersLetItWrite(s: State, a: Action, f: nat, x: nat)
    requires s.ring.Valid() && Enabled(s, a) && ToBeWritten(s, f, x) && !(a.Append? && a.f == f)
    ensures ToBeWritten(Do(s, a), f, x)
  {
    if OfLoop(a) {
      LoopLetsItWrite(s, a, f, x);
    } else if a.Append? {
      AppendLetsItWrite(s, a.f, a.outcome, f, x);
    } else if a.Send? {
      SendLetsItWrite(s, a.f, a.reply, f, x);
    } else {
      match a
      case Unlink(g, ok) =>
      case _ =>
    }
  }

  lemma WriteStep(s: State, a: Action, f: nat, x: nat)
    requires s.ring.Valid() && Enabled(s, a) && ToBeWritten(s, f, x)
    ensures ToBeWritten(Do(s, a), f, x)
            || (a.Append? && a.f == f && AppendsIt(s, a, x) && HasFile(s, f) && ComesOut(s, Do(s, a), f, a.outcome, x))
  {
    if a.Append? && a.f == f {
      AppendWrites(s, f, a.outcome, x);
    } else {
      OthersLetItWrite(s, a, f, x);
    }
  }

  /** An event that a thread is to write stays with that thread until the thread has written it. */
  lemma {:induction false} WrittenInTheEnd(n: nat, actions: seq<Action>, i: nat, k: nat, f: nat, x: nat)
    requires n >= 1 && CanRun(Init(n), actions) && i <= k <= |actions|
    requires ToBeWritten(Trace(Init(n), actions)[i], f, x)
    ensures var states := Trace(Init(n), actions);
            ToBeWritten(states[k], f, x) || WrittenBetween(states, actions, i, k, f, x)
    decreases k
  {
    if i < k {
      var states := Trace(Init(n), actions);
      WrittenInTheEnd(n, actions, i, k - 1, f, x);
      TraceStep(Init(n), actions, k - 1);
      if ToBeWritten(states[k - 1], f, x) {
        WriteStep(states[k - 1], actions[k - 1], f, x);
        assert ToBeWritten(states[k], f, x) || WrittenAt(states, actions, k - 1, f, x);
      } else {
        WrittenLater(states, actions, i, k - 1, f, x);
      }
    }
  }

  lemma WrittenLater(states: seq<State>, actions: seq<Action>, i: nat, k: nat, f: nat, x: nat)
    requires |states| == |actions| + 1 && WrittenBetween(states, actions, i, k, f, x)
    ensures WrittenBetween(states, actions, i, k + 1, f, x)
  {
    var j: nat :| i <= j < k && WrittenAt(states, actions, j, f, x);
    assert i <= j < k + 1;
  }

  // ------------------------------------------------- and neither delivered nor dropped

  /** The event has been on its way to disk, or further. */
  ghost predicate OffToDisk(s: State, x: nat) {
    || (exists f: nat :: ToBeWritten(s, f, x))
    || Down(s, x) >= 1 || x in s.ledger.orphaned || x in s.ledger.capped || x in s.ledger.failed
  }

  lemma OrphanedStays(s: State, a: Action, x: nat)
    requires s.ring.Valid() && Enabled(s, a) && x in s.ledger.orphaned
    ensures x in Do(s, a).ledger.orphaned
  {
    OrphanedStep(s, a, x);
  }

  lemma ComesOutOffToDisk(s: State, t: State, f: nat, outcome: WriteOutcome, x: nat)
    requires HasFile(s, f) && ComesOut(s, t, f, outcome, x)
    ensures OffToDisk(t, x)
  {
    if outcome == Written && !IsStale(s, f, s.flushers[f].fd.value.day) {
      LineIsDown(t, Line(x, s.flushers[f].fd.value.day));
    }
  }

  lemma WrittenStaysOffToDisk(s: State, a: Action, f: nat, x: nat)
    requires s.ring.Valid() && Enabled(s, a) && ToBeWritten(s, f, x)
    ensures OffToDisk(Do(s, a), x)
  {
    WriteStep(s, a, f, x);
    if !ToBeWritten(Do(s, a), f, x) {
      ComesOutOffToDisk(s, Do(s, a), f, a.outcome, x);
    }
  }

  lemma StaysOffToDisk(s: State, a: Action, x: nat)
    requires s.ring.Valid() && Enabled(s, a) && OffToDisk(s, x)
    ensures OffToDisk(Do(s, a), x)
  {
    if f: nat :| ToBeWritten(s, f, x) {
      WrittenStaysOffToDisk(s, a, f, x);
    } else if x in s.ledger.orphaned {
      OrphanedStays(s, a, x);
    } else if Down(s, x) >= 1 {
      StepDown(s, a, x);
    } else if x in s.ledger.capped {
      FateStep(s, a, Refused, x);
    } else {
      FateStep(s, a, Unwritten, x);
    }
  }

  lemma {:induction false} RunsOffToDisk(n: nat, actions: seq<Action>, i: nat, k: nat, x: nat)
    requires n >= 1 && CanRun(Init(n), actions) && i <= k <= |actions| && OffToDisk(Trace(Init(n), actions)[i], x)
    ensures OffToDisk(Trace(Init(n), actions)[k], x)
    decreases k
  {
    if i < k {
      RunsOffToDisk(n, actions, i, k - 1, x);
      TraceStep(Init(n), actions, k - 1);
      StaysOffToDisk(Trace(Init(n), actions)[k - 1], actions[k - 1], x);
    }
  }

  lemma OffToDiskIsAPlace(s: State, x: nat)
    requires Conserved(s) && OffToDisk(s, x)
    ensures x !in s.ledger.accepted && x !in s.ledger.dropped
  {
    assert Places(s, x) == if x < s.next then 1 else 0;
    InIsCounted(s.ledger.accepted, x);
    InIsCounted(s.ledger.dropped, x);
    InIsCounted(s.ledger.orphaned, x);
    InIsCounted(s.ledger.capped, x);
    InIsCounted(s.ledger.failed, x);
    if f: nat :| ToBeWritten(s, f, x) {
      InIsCounted(HeldBy(s.flushers[f]), x);
      HeldByOne(s.flushers, f, |s.flushers|, x);
    }
  }

  /**
   A batch that met no server goes to disk, and nowhere else. From then on the flusher holds each of its
   events until it has written it, with the outcome the disk gives; none of them is ever dropped, or
   counted as delivered.
   */
  lemma SpilledGoesToDisk(n: nat, actions: seq<Action>, i: nat, k: nat, f: nat, x: nat)
    requires n >= 1 && CanRun(Init(n), actions) && i < k <= |actions|
    requires actions[i] == Send(f, TransportError) && SendsWith(Trace(Init(n), actions)[i], actions[i], x)
    ensures var states := Trace(Init(n), actions);
            && (ToBeWritten(states[k], f, x) || WrittenBetween(states, actions, i + 1, k, f, x))
            && x !in states[k].ledger.dropped && x !in states[k].ledger.accepted
  {
    TraceStep(Init(n), actions, i);
    TransportErrorSpills(Trace(Init(n), actions)[i], f, x);
    GoesToDisk(n, actions, i + 1, k, f, x);
  }

  lemma TransportErrorSpills(s: State, f: nat, x: nat)
    requires s.ring.Valid() && Enabled(s, Send(f, TransportError)) && SendsWith(s, Send(f, TransportError), x)
    ensures ToBeWritten(Do(s, Send(f, TransportError)), f, x)
  {
  }

  lemma DenialIsToBeWritten(s: State, f: nat)
    requires s.ring.Valid() && Enabled(s, Deny(f))
    ensures ToBeWritten(Do(s, Deny(f)), f, s.next)
  {
  }

  /** So does a fail-closed denial. */
  lemma DenialGoesToDisk(n: nat, actions: seq<Action>, i: nat, k: nat, f: nat)
    requires n >= 1 && CanRun(Init(n), actions) && i < k <= |actions| && actions[i] == Deny(f)
    ensures var states := Trace(Init(n), actions);
            var x := states[i].next;
            && (ToBeWritten(states[k], f, x) || WrittenBetween(states, actions, i + 1, k, f, x))
            && x !in states[k].ledger.dropped && x !in states[k].ledger.accepted
  {
    TraceStep(Init(n), actions, i);
    DenialIsToBeWritten(Trace(Init(n), actions)[i], f);
    GoesToDisk(n, actions, i + 1, k, f, Trace(Init(n), actions)[i].next);
  }

  lemma GoesToDisk(n: nat, actions: seq<Action>, i: nat, k: nat, f: nat, x: nat)
    requires n >= 1 && CanRun(Init(n), actions) && i <= k <= |actions|
    requires ToBeWritten(Trace(Init(n), actions)[i], f, x)
    ensures var states := Trace(Init(n), actions);
            && (ToBeWritten(states[k], f, x) || WrittenBetween(states, actions, i, k, f, x))
            && x !in states[k].ledger.dropped && x !in states[k].ledger.accepted
  {
    WrittenInTheEnd(n, actions, i, k, f, x);
    assert OffToDisk(Trace(Init(n), actions)[i], x);
    RunsOffToDisk(n, actions, i, k, x);
    TraceConserved(n, actions, k);
    OffToDiskIsAPlace(Trace(Init(n), actions)[k], x);
  }

  // ------------------------------------------------------------------ on the disk

  /** Action j writes the event's line to the file of the day, and nobody deletes the file afterwards. */
  ghost predicate WrittenToStay(states: seq<State>, actions: seq<Action>, j: nat, k: nat, x: nat, day: nat)
    requires |states| == |actions| + 1
  {
    && j < k <= |actions| && Lands(states[j], actions[j], x, day)
    && forall m :: j < m < k ==> !Deletes(states[m], actions[m], day)
  }

  ghost predicate WrittenAndKept(states: seq<State>, actions: seq<Action>, k: nat, x: nat, day: nat)
    requires |states| == |actions| + 1
  {
    exists j: nat :: WrittenToStay(states, actions, j, k, x, day)
  }

  lemma KeptStep(states: seq<State>, actions: seq<Action>, k: nat, x: nat, day: nat)
    requires |states| == |actions| + 1 && k < |actions|
    ensures WrittenAndKept(states, actions, k + 1, x, day)
            <==> Lands(states[k], actions[k], x, day)
                 || (WrittenAndKept(states, actions, k, x, day) && !Deletes(states[k], actions[k], day))
  {
    if WrittenAndKept(states, actions, k + 1, x, day) {
      var j: nat :| WrittenToStay(states, actions, j, k + 1, x, day);
      assert j < k ==> WrittenToStay(states, actions, j, k, x, day);
    }
    if Lands(states[k], actions[k], x, day) {
      assert WrittenToStay(states, actions, k, k + 1, x, day);
    } else if WrittenAndKept(states, actions, k, x, day) && !Deletes(states[k], actions[k], day) {
      var j: nat :| WrittenToStay(states, actions, j, k, x, day);
      assert WrittenToStay(states, actions, j, k + 1, x, day);
    }
  }

  /** What is on disk: an event's line is in a file exactly if it was written there and the file not deleted since. */
  lemma {:induction false} OnDiskExactlyWhen(n: nat, actions: seq<Action>, k: nat, x: nat, day: nat)
    requires n >= 1 && CanRun(Init(n), actions) && k <= |actions|
    ensures var states := Trace(Init(n), actions);
            Line(x, day) in states[k].disk <==> WrittenAndKept(states, actions, k, x, day)
  {
    var states := Trace(Init(n), actions);
    TraceEnds(Init(n), actions);
    if k > 0 {
      OnDiskExactlyWhen(n, actions, k - 1, x, day);
      TraceStep(Init(n), actions, k - 1);
      DiskStep(states[k - 1], actions[k - 1], Line(x, day));
      KeptStep(states, actions, k - 1, x, day);
    }
  }

  // ------------------------------------------------------------ settled by a replay

  /** A replay that has read the event deletes its file, with the line in it. */
  predicate ReadLine(s: State, f: nat, day: nat, x: nat) {
    Replays(s, f, day) && Line(x, day) in s.disk && x in s.flushers[f].lines
  }

  lemma SettledStep(s: State, a: Action, x: nat)
    requires s.ring.Valid() && Enabled(s, a)
    ensures x in Do(s, a).ledger.settled
            <==> x in s.ledger.settled || (a.Unlink? && a.ok && exists day: nat :: ReadLine(s, a.f, day, x))
  {
    if a.Unlink? && a.ok {
      var p := s.flushers[a.f];
      assert (exists day: nat :: ReadLine(s, a.f, day, x)) <==> ReadLine(s, a.f, p.day, x);
      AmongMeans(InFile(s.disk, p.day, true), p.lines, true, x);
      InFileMeans(s.disk, p.day, true, Line(x, p.day));
      if line :| line in InFile(s.disk, p.day, true) && line.id == x {
        InFileMeans(s.disk, p.day, true, line);
        assert line == Line(x, p.day);
      }
    } else if a.Append? {
      AppendEffect(s, a.f, a.outcome);
    } else {
      DiskUntouched(s, a);
    }
  }

  ghost predicate SettledAt(states: seq<State>, actions: seq<Action>, m: nat, x: nat)
    requires |states| == |actions| + 1
  {
    m < |actions| && actions[m].Unlink? && actions[m].ok && exists day: nat :: ReadLine(states[m], actions[m].f, day, x)
  }

  lemma SettledRecord(states: seq<State>, actions: seq<Action>, x: nat)
    requires |states| == |actions| + 1 && x !in states[0].ledger.settled
    requires forall m: nat :: m < |actions| ==>
               (x in states[m + 1].ledger.settled <==> x in states[m].ledger.settled || SettledAt(states, actions, m, x))
    ensures x in states[|actions|].ledger.settled <==> exists m: nat :: SettledAt(states, actions, m, x)
  {
    var holds := (m: nat) => m <= |actions| && x in states[m].ledger.settled;
    var settled := (m: nat) => SettledAt(states, actions, m, x);
    Accumulates(holds, settled, |actions|);
    assert forall m: nat :: settled(m) <==> SettledAt(states, actions, m, x);
  }

  /** An event is settled exactly if a replay that had read it deleted the file with its line. */
  lemma SettledExactlyWhen(n: nat, actions: seq<Action>, x: nat)
    requires n >= 1 && CanRun(Init(n), actions)
    ensures x in Run(Init(n), actions).ledger.settled
            <==> exists m: nat :: SettledAt(Trace(Init(n), actions), actions, m, x)
  {
    var states := Trace(Init(n), actions);
    TraceEnds(Init(n), actions);
    forall m: nat | m < |actions|
      ensures x in states[m + 1].ledger.settled <==> x in states[m].ledger.settled || SettledAt(states, actions, m, x)
    {
      TraceStep(Init(n), actions, m);
      SettledStep(states[m], actions[m], x);
    }
    SettledRecord(states, actions, x);
  }

  // ------------------------------------------------------------- when a flush is over

  /** The thread is in the middle of a flush. */
  predicate Flushing(p: Phase) {
    p.Draining? || p.Sending? || p.Spilling? || p.Listing? || p.Files? || p.Replaying?
  }

  /** The events that end a flush: an empty buffer, an answer that is no delivery, a batch written, a replay that raises. */
  ghost predicate EndsFlush(s: State, a: Action, f: nat) {
    && s.ring.Valid() && f < |s.flushers|
    && (|| (a == Drain(f) && s.ring.Contents() == [])
        || (a.Send? && a.f == f && a.reply in {ApiError, OtherError})
        || (a.Append? && a.f == f && s.flushers[f].Spilling? && |s.flushers[f].rest| == 1)
        || a == ReplayRaises(f))
  }

  lemma OneMoves(s: State, a: Action, f: nat)
    requires s.ring.Valid() && Enabled(s, a) && !a.Send? && !a.Append? && !a.Drain?
    requires f < |s.flushers| && Flushing(s.flushers[f])
    ensures f < |Do(s, a).flushers| && (!Flushing(Do(s, a).flushers[f]) <==> EndsFlush(s, a, f))
  {
    if !OfLoop(a) {
      match a
      case Unlink(g, ok) =>
      case _ =>
    }
  }

  lemma AppendEndsFlush(s: State, g: nat, outcome: WriteOutcome, f: nat)
    requires s.ring.Valid() && Enabled(s, Append(g, outcome)) && f < |s.flushers| && Flushing(s.flushers[f])
    ensures var t := AppendBy(s, g, outcome);
            f < |t.flushers| && (!Flushing(t.flushers[f]) <==> EndsFlush(s, Append(g, outcome), f))
  {
    AppendMoves(s, g, outcome);
  }

  lemma SendEndsFlush(s: State, g: nat, reply: Reply, f: nat)
    requires s.ring.Valid() && Enabled(s, Send(g, reply)) && f < |s.flushers| && Flushing(s.flushers[f])
    ensures var t := SendBy(s, g, reply);
            f < |t.flushers| && (!Flushing(t.flushers[f]) <==> EndsFlush(s, Send(g, reply), f))
  {
  }

  /** A flush is over exactly when one of these ends it; in particular it goes on after every replay. */
  lemma FlushEndsExactlyWhen(s: State, a: Action, f: nat)
    requires s.ring.Valid() && Enabled(s, a) && f < |s.flushers| && Flushing(s.flushers[f])
    ensures f < |Do(s, a).flushers| && (!Flushing(Do(s, a).flushers[f]) <==> EndsFlush(s, a, f))
  {
    if a.Append? {
      AppendEndsFlush(s, a.f, a.outcome, f);
    } else if a.Send? {
      SendEndsFlush(s, a.f, a.reply, f);
    } else if !a.Drain? {
      OneMoves(s, a, f);
    }
  }

  // ---------------------------------------------------- every listed file has its turn

  /** The files a replay has still to read. */
  function ToRead(p: Phase): seq<nat>
    requires p.Files? || p.Replaying?
  {
    p.days
  }

  predicate InReplay(s: State, f: nat) {
    f < |s.flushers| && (s.flushers[f].Files? || s.flushers[f].Replaying?)
  }

  predicate RestIs(s: State, f: nat, days: seq<nat>) {
    InReplay(s, f) && ToRead(s.flushers[f]) == days
  }

  /** The file that the thread will read next. */
  predicate IsNext(s: State, f: nat, day: nat) {
    f < |s.flushers| && s.flushers[f].Files? && s.flushers[f].days != [] && s.flushers[f].days[0] == day
  }

  /** How many files thread f has tried to read, of the actions from i on and before k. */
  function Reads(actions: seq<Action>, f: nat, i: nat, k: nat): nat
    requires k <= |actions|
  {
    if k <= i then 0 else Reads(actions, f, i, k - 1) + if actions[k - 1].ReadFile? && actions[k - 1].f == f then 1 else 0
  }

  /** A replay under way goes on with the rest of its files, whatever becomes of the one it is at. */
  lemma ReplayGoesOn(s: State, a: Action, f: nat)
    requires s.ring.Valid() && Enabled(s, a) && InReplay(s, f) && InReplay(Do(s, a), f)
    ensures var days := ToRead(s.flushers[f]);
            if a.ReadFile? && a.f == f then days != [] && ToRead(Do(s, a).flushers[f]) == days[1..]
            else ToRead(Do(s, a).flushers[f]) == days
  {
    if OfLoop(a) {
      LoopLeavesReplays(s, a, f);
    } else if a.Append? {
      AppendMoves(s, a.f, a.outcome);
    } else if a.Send? || a.Drain? || a.Unlink? {
      FlushLeavesReplays(s, a, f);
    }
  }

  lemma LoopLeavesReplays(s: State, a: Action, f: nat)
    requires s.ring.Valid() && Enabled(s, a) && OfLoop(a) && InReplay(s, f) && InReplay(Do(s, a), f)
    ensures Do(s, a).flushers[f] == s.flushers[f]
  {
  }

  lemma FlushLeavesReplays(s: State, a: Action, f: nat)
    requires s.ring.Valid() && Enabled(s, a) && (a.Send? || a.Drain? || a.Unlink?) && InReplay(s, f) && InReplay(Do(s, a), f)
    ensures ToRead(Do(s, a).flushers[f]) == ToRead(s.flushers[f])
  {
    match a
    case Send(g, reply) =>
    case Drain(g) =>
    case Unlink(g, ok) =>
  }

  lemma {:induction false} RestToRead(n: nat, actions: seq<Action>, f: nat, days: seq<nat>, i: nat, k: nat)
    requires n >= 1 && CanRun(Init(n), actions) && i < k <= |actions| && actions[i] == List(f, days)
    requires forall m :: i < m <= k ==> InReplay(Trace(Init(n), actions)[m], f)
    ensures var t := Reads(actions, f, i + 1, k);
            t <= |days| && RestIs(Trace(Init(n), actions)[k], f, days[t..])
    decreases k
  {
    var states := Trace(Init(n), actions);
    TraceStep(Init(n), actions, k - 1);
    if i < k - 1 {
      RestToRead(n, actions, f, days, i, k - 1);
      ReplayGoesOn(states[k - 1], actions[k - 1], f);
    }
  }

  /**
   A replay that is not cut short takes all files of its listing, one after another in that order: the
   t-th file it tries to read is the t-th of the listing, whatever became of those before it.
   */
  lemma EveryFileHasItsTurn(n: nat, actions: seq<Action>, f: nat, days: seq<nat>, i: nat, k: nat)
    requires n >= 1 && CanRun(Init(n), actions) && i < k < |actions|
    requires actions[i] == List(f, days) && forall m :: i < m <= k ==> InReplay(Trace(Init(n), actions)[m], f)
    ensures actions[k] == EndReplay(f) ==> Reads(actions, f, i + 1, k) == |days|
    ensures actions[k].ReadFile? && actions[k].f == f ==>
              var t := Reads(actions, f, i + 1, k);
              t < |days| && IsNext(Trace(Init(n), actions)[k], f, days[t])
  {
    RestToRead(n, actions, f, days, i, k);
    TraceStep(Init(n), actions, k);
  }

  /** What a replay sends at once is the next hundred events of what it has read, or the rest. */
  lemma ChunkOfAHundred(s: State, f: nat)
    requires s.ring.Valid() && Enabled(s, SendChunk(f, true))
    ensures var p, t := s.flushers[f], Do(s, SendChunk(f, true));
            var rest := p.lines[p.sent..];
            && t.sent == s.sent + (if |rest| <= 100 then rest else rest[..100])
            && t.flushers[f].Replaying? && t.flushers[f].sent == p.sent + if |rest| <= 100 then |rest| else 100
  {
    var p := s.flushers[f];
    assert p.lines[p.sent..|p.lines|] == p.lines[p.sent..];
    if |p.lines| - p.sent > 100 {
      assert p.lines[p.sent..][..100] == p.lines[p.sent..p.sent + 100];
    }
  }

  // ------------------------------------------------------------- the background loop

  /** How many flushes the background thread has begun after stop was set. */
  function BegunAfterStop(actions: seq<Action>): nat {
    if actions == [] then 0 else
      var front, last := actions[..|actions| - 1], actions[|actions| - 1];
      BegunAfterStop(front) + if (last.WaitTimesOut? || last.Clear?) && SetStop in front then 1 else 0
  }

  lemma LoopCounts(s: State, a: Action)
    requires s.ring.Valid() && Enabled(s, a) && OfLoop(a)
    ensures Do(s, a).stop <==> s.stop || a.SetStop?
    ensures Do(s, a).flushesAfterStop == s.flushesAfterStop + if (a.WaitTimesOut? || a.Clear?) && s.stop then 1 else 0
  {
  }

  lemma OthersDoNotCount(s: State, a: Action)
    requires s.ring.Valid() && Enabled(s, a) && !OfLoop(a)
    ensures Do(s, a).stop == s.stop && Do(s, a).flushesAfterStop == s.flushesAfterStop
  {
    match a
    case Send(f, reply) =>
    case Append(f, outcome) =>
    case _ =>
  }

  lemma {:induction false} FlushesCounted(n: nat, actions: seq<Action>, k: nat)
    requires n >= 1 && CanRun(Init(n), actions) && k <= |actions|
    ensures var s := Trace(Init(n), actions)[k];
            s.flushesAfterStop == BegunAfterStop(actions[..k]) && (s.stop <==> SetStop in actions[..k])
  {
    TraceEnds(Init(n), actions);
    if k > 0 {
      FlushesCounted(n, actions, k - 1);
      TraceStep(Init(n), actions, k - 1);
      assert actions[..k] == actions[..k - 1] + [actions[k - 1]];
      var s, a := Trace(Init(n), actions)[k - 1], actions[k - 1];
      if OfLoop(a) {
        LoopCounts(s, a);
      } else {
        OthersDoNotCount(s, a);
      }
    }
  }

  /** In every run the background thread begins at most one flush after stop was set. */
  lemma StopsAfterOneFlush(n: nat, actions: seq<Action>)
    requires n >= 1 && CanRun(Init(n), actions)
    ensures BegunAfterStop(actions) <= 1
  {
    TraceEnds(Init(n), actions);
    assert actions[..|actions|] == actions;
    FlushesCounted(n, actions, |actions|);
    NoLostWakeUp(n, actions);
    RunKeepsWakeUp(Init(n), actions);
  }

  lemma SendEndsEmpty(s: State, g: nat, reply: Reply)
    requires s.ring.Valid() && Enabled(s, Send(g, reply))
    ensures SendBy(s, g, reply).endedEmpty == if EndsFlush(s, Send(g, reply), 0) then false else s.endedEmpty
  {
  }

  lemma AppendEndsEmpty(s: State, g: nat, outcome: WriteOutcome)
    requires s.ring.Valid() && Enabled(s, Append(g, outcome))
    ensures AppendBy(s, g, outcome).endedEmpty == if EndsFlush(s, Append(g, outcome), 0) then false else s.endedEmpty
  {
  }

  /** What is recorded of the background thread's last flush: whether an empty drain ended it. */
  lemma EndedEmptyMeans(s: State, a: Action)
    requires s.ring.Valid() && Enabled(s, a)
    ensures Do(s, a).endedEmpty == if EndsFlush(s, a, 0) then a == Drain(0) else s.endedEmpty
  {
    if a.Send? {
      SendEndsEmpty(s, a.f, a.reply);
    } else if a.Append? {
      AppendEndsEmpty(s, a.f, a.outcome);
    } else if !OfLoop(a) {
      match a
      case Drain(f) =>
      case Unlink(f, ok) =>
      case _ =>
    }
  }
}
