/**
 The audit pipeline under concurrency: any number of producers, the background flusher, any
 number of other threads inside `flush_all`, a server and a disk that answer as they please.

 Events are named by the order in which they come into being. A step is one critical section or
 one call into the outside world; an `Action` picks the thread and the outcome, so a sequence of
 actions is one interleaving. Flusher 0 is the background thread.
 */
module Pipeline {
  import opened Wrappers
  import opened AuditBuffer

  datatype Reply = Accepted | TransportError | ApiError | OtherError

  /** What becomes of a line handed to the overflow writer. */
  datatype WriteOutcome = Written | Capped | Failed

  /** A line of an overflow file, with the file it is in. */
  datatype Line = Line(id: nat, day: nat)

  /** An open file: that of a day, and how often the file of that day had been deleted before it was opened. */
  datatype Fd = Fd(day: nat, age: nat)

  datatype Phase =
    | Idle                                   // not flushing
    | AtTop | Waiting | Clearing | Exited    // the loop of the background thread
    | Draining                               // in _do_flush, about to drain
    | Sending(batch: seq<nat>)               // about to call log_batch
    | Spilling(rest: seq<nat>, fd: Option<Fd>)   // writing a failed batch to disk
    | Denying(id: nat, fd: Option<Fd>)       // writing a fail-closed denial to disk
    | Listing                                // delivered; about to list the overflow directory
    | Files(days: seq<nat>)                  // files still to be replayed
    | Replaying(day: nat, days: seq<nat>, lines: seq<nat>, sent: nat)  // `lines` read, `sent` of them accepted

  /** The events that have left the pipeline, by the way they left. */
  datatype Ledger = Ledger(
    accepted: seq<nat>,      // delivered by log_batch straight from the ring
    settled: seq<nat>,       // replayed and then deleted from disk
    dropped: seq<nat>,       // given up after an API or unexpected error
    capped: seq<nat>,        // refused by a full overflow file
    failed: seq<nat>,        // lost to a failing write
    clobbered: seq<nat>,     // deleted from disk without having been read by the replayer
    orphaned: seq<nat>)      // written to a file that had been deleted after it was opened

  datatype State = State(
    next: nat,                    // events 0..next exist
    ring: Ring<nat>,
    flushers: seq<Phase>,
    stop: bool,
    disk: seq<Line>,
    epochs: map<nat, nat>,        // how often the file of a day has been deleted
    ledger: Ledger,
    sent: seq<nat>,               // accepted by the server through replays, in that order
    endedEmpty: bool,             // the background thread's last flush ended on an empty drain
    flushesAfterStop: nat)

  datatype Action =
    | Push
    | Deny(f: nat)                                      // a fail-closed denial comes up, to go straight to disk
    | CallFlushAll(f: nat)
    | Drain(f: nat)
    | Send(f: nat, reply: Reply)
    | OpenFile(f: nat, day: nat)
    | Append(f: nat, outcome: WriteOutcome)
    | List(f: nat, days: seq<nat>)
    | ReadFile(f: nat, ok: bool)
    | SendChunk(f: nat, ok: bool)
    | Unlink(f: nat, ok: bool)
    | EndReplay(f: nat)
    | ReplayRaises(f: nat)
    | LoopTop | WaitTriggered | WaitTimesOut | Clear
    | SetStop | WakeUp

  function Init(n: nat): State
    requires n >= 1
  {
    State(0, Ring([], [], false), [AtTop] + seq(n - 1, _ => Idle), false, [], map[],
          Ledger([], [], [], [], [], [], []), [], true, 0)
  }

  /** How often the file of a day has been deleted. */
  function Epoch(s: State, day: nat): nat {
    if day in s.epochs then s.epochs[day] else 0
  }

  /** The thread has an event to write to disk. */
  predicate Writes(p: Phase) {
    p.Denying? || (p.Spilling? && p.rest != [])
  }

  function NextId(p: Phase): nat
    requires Writes(p)
  {
    if p.Denying? then p.id else p.rest[0]
  }

  predicate Enabled(s: State, a: Action) {
    match a
    case Push => true
    case Deny(f) => 0 < f < |s.flushers| && s.flushers[f].Idle?
    case CallFlushAll(f) => 0 < f < |s.flushers| && s.flushers[f].Idle?
    case Drain(f) => f < |s.flushers| && s.flushers[f].Draining?
    case Send(f, _) => f < |s.flushers| && s.flushers[f].Sending?
    case OpenFile(f, _) => f < |s.flushers| && Writes(s.flushers[f]) && s.flushers[f].fd.None?
    case Append(f, _) => f < |s.flushers| && Writes(s.flushers[f]) && s.flushers[f].fd.Some?
    case List(f, _) => f < |s.flushers| && s.flushers[f].Listing?
    case ReadFile(f, _) => f < |s.flushers| && s.flushers[f].Files? && s.flushers[f].days != []
    case SendChunk(f, _) => f < |s.flushers| && s.flushers[f].Replaying? && s.flushers[f].sent < |s.flushers[f].lines|
    case Unlink(f, _) => f < |s.flushers| && s.flushers[f].Replaying? && s.flushers[f].sent >= |s.flushers[f].lines|
    case EndReplay(f) => f < |s.flushers| && s.flushers[f].Files? && s.flushers[f].days == []
    case ReplayRaises(f) => f < |s.flushers| && (s.flushers[f].Listing? || s.flushers[f].Files? || s.flushers[f].Replaying?)
    case LoopTop => |s.flushers| > 0 && s.flushers[0].AtTop?
    case WaitTriggered => |s.flushers| > 0 && s.flushers[0].Waiting? && s.ring.flushNow
    case WaitTimesOut => |s.flushers| > 0 && s.flushers[0].Waiting?
    case Clear => |s.flushers| > 0 && s.flushers[0].Clearing?
    case SetStop => true
    case WakeUp => true
  }

  /** The lines of one file, and the lines of all others, in order. */
  function InFile(disk: seq<Line>, day: nat, inside: bool): seq<Line> {
    if disk == [] then [] else
      var front, last := disk[..|disk| - 1], disk[|disk| - 1];
      InFile(front, day, inside) + if (last.day == day) == inside then [last] else []
  }

  function LineIds(lines: seq<Line>): seq<nat> {
    seq(|lines|, i requires 0 <= i < |lines| => lines[i].id)
  }

  function Home(f: nat): Phase {
    if f == 0 then AtTop else Idle
  }

  function Move(s: State, f: nat, p: Phase): State
    requires f < |s.flushers|
  {
    s.(flushers := s.flushers[f := p])
  }

  /** The flush of thread `f` ends; `empty` tells whether it ended on an empty drain. */
  function EndFlush(s: State, f: nat, empty: bool): State
    requires f < |s.flushers|
  {
    Move(s, f, Home(f)).(endedEmpty := if f == 0 then empty else s.endedEmpty)
  }

  /** The background thread enters _do_flush. */
  function BeginFlush(s: State): State
    requires |s.flushers| > 0
  {
    Move(s, 0, Draining).(flushesAfterStop := if s.stop then s.flushesAfterStop + 1 else s.flushesAfterStop)
  }

  /** A line written to an open file. If the file has been deleted since, the line goes with it. */
  function Write(s: State, id: nat, fd: Fd, outcome: WriteOutcome): State {
    match outcome
    case Written =>
      if fd.age == Epoch(s, fd.day) then s.(disk := s.disk + [Line(id, fd.day)])
      else s.(ledger := s.ledger.(orphaned := s.ledger.orphaned + [id]))
    case Capped => s.(ledger := s.ledger.(capped := s.ledger.capped + [id]))
    case Failed => s.(ledger := s.ledger.(failed := s.ledger.failed + [id]))
  }

  /** The events of some lines that a replayer has read, or those it has not. */
  function Among(lines: seq<Line>, read: seq<nat>, known: bool): seq<nat> {
    if lines == [] then [] else
      var front, last := lines[..|lines| - 1], lines[|lines| - 1];
      Among(front, read, known) + if (last.id in read) == known then [last.id] else []
  }

  /** The file goes; what the replayer had read is settled, what it had not read is lost. */
  function Delete(s: State, day: nat, read: seq<nat>): State {
    var removed := InFile(s.disk, day, true);
    s.(disk := InFile(s.disk, day, false),
       epochs := s.epochs[day := Epoch(s, day) + 1],
       ledger := s.ledger.(settled := s.ledger.settled + Among(removed, read, true),
                           clobbered := s.ledger.clobbered + Among(removed, read, false)))
  }

  function DrainBy(s: State, f: nat): State
    requires f < |s.flushers| && |s.ring.fates| <= |s.ring.history|
  {
    var content := s.ring.Contents();
    var batch := content[..MinNat(MAX_SEND_BATCH, |content|)];
    var s' := s.(ring := s.ring.Drain(MAX_SEND_BATCH));
    if batch == [] then EndFlush(s', f, true) else Move(s', f, Sending(batch))
  }

  function SendBy(s: State, f: nat, reply: Reply): State
    requires f < |s.flushers| && s.flushers[f].Sending?
  {
    var batch := s.flushers[f].batch;
    match reply
    case Accepted => Move(s, f, Listing).(ledger := s.ledger.(accepted := s.ledger.accepted + batch))
    case TransportError => Move(s, f, Spilling(batch, None))
    case ApiError => EndFlush(s, f, false).(ledger := s.ledger.(dropped := s.ledger.dropped + batch))
    case OtherError => EndFlush(s, f, false).(ledger := s.ledger.(dropped := s.ledger.dropped + batch))
  }

  function OpenBy(s: State, f: nat, day: nat): State
    requires Enabled(s, OpenFile(f, day))
  {
    Move(s, f, s.flushers[f].(fd := Some(Fd(day, Epoch(s, day)))))
  }

  /** What the thread does after its line is written. */
  function AfterLine(f: nat, p: Phase): Phase
    requires Writes(p)
  {
    if p.Denying? || |p.rest| == 1 then Home(f) else Spilling(p.rest[1..], None)
  }

  function AppendBy(s: State, f: nat, outcome: WriteOutcome): State
    requires Enabled(s, Append(f, outcome))
  {
    var p := s.flushers[f];
    var s' := Write(s, NextId(p), p.fd.value, outcome);
    if p.Spilling? && |p.rest| == 1 then EndFlush(s', f, false) else Move(s', f, AfterLine(f, p))
  }

  function ReadBy(s: State, f: nat, ok: bool): State
    requires f < |s.flushers| && s.flushers[f].Files? && s.flushers[f].days != []
  {
    var days := s.flushers[f].days;
    if ok then Move(s, f, Replaying(days[0], days[1..], LineIds(InFile(s.disk, days[0], true)), 0))
    else Move(s, f, Files(days[1..]))
  }

  function SendChunkBy(s: State, f: nat, ok: bool): State
    requires f < |s.flushers| && s.flushers[f].Replaying? && s.flushers[f].sent < |s.flushers[f].lines|
  {
    var p := s.flushers[f];
    var sent := p.sent + MinNat(MAX_SEND_BATCH, |p.lines| - p.sent);
    if ok then Move(s, f, p.(sent := sent)).(sent := s.sent + p.lines[p.sent..sent])
    else Move(s, f, Files(p.days))
  }

  function UnlinkBy(s: State, f: nat, ok: bool): State
    requires f < |s.flushers| && s.flushers[f].Replaying?
  {
    var p := s.flushers[f];
    Move(if ok then Delete(s, p.day, p.lines) else s, f, Files(p.days))
  }

  function Do(s: State, a: Action): State
    requires Enabled(s, a) && |s.ring.fates| <= |s.ring.history|
  {
    match a
    case Push => s.(next := s.next + 1, ring := s.ring.Push(s.next))
    case Deny(f) => Move(s, f, Denying(s.next, None)).(next := s.next + 1)
    case CallFlushAll(f) => Move(s, f, Draining)
    case Drain(f) => DrainBy(s, f)
    case Send(f, reply) => SendBy(s, f, reply)
    case OpenFile(f, day) => OpenBy(s, f, day)
    case Append(f, outcome) => AppendBy(s, f, outcome)
    case List(f, days) => Move(s, f, Files(days))
    case ReadFile(f, ok) => ReadBy(s, f, ok)
    case SendChunk(f, ok) => SendChunkBy(s, f, ok)
    case Unlink(f, ok) => UnlinkBy(s, f, ok)
    case EndReplay(f) => Move(s, f, Draining)
    case ReplayRaises(f) => EndFlush(s, f, false)
    case LoopTop => Move(s, 0, if s.stop then Exited else Waiting)
    case WaitTriggered => Move(s, 0, Clearing)
    case WaitTimesOut => BeginFlush(s)
    case Clear => BeginFlush(s.(ring := s.ring.(flushNow := false)))
    case SetStop => s.(stop := true)
    case WakeUp => s.(ring := s.ring.(flushNow := true))
  }

  // ------------------------------------------------------------ conservation

  /** How many of the first n entries are x. */
  function CountTo(ids: seq<nat>, n: nat, x: nat): nat
    requires n <= |ids|
  {
    if n == 0 then 0 else CountTo(ids, n - 1, x) + if ids[n - 1] == x then 1 else 0
  }

  function Count(ids: seq<nat>, x: nat): nat {
    CountTo(ids, |ids|, x)
  }

  lemma {:induction false} CountToAppend(a: seq<nat>, b: seq<nat>, n: nat, x: nat)
    requires n <= |a| + |b|
    ensures CountTo(a + b, n, x) == if n <= |a| then CountTo(a, n, x) else CountTo(a, |a|, x) + CountTo(b, n - |a|, x)
  {
    if n > 0 {
      CountToAppend(a, b, n - 1, x);
    }
  }

  lemma CountAppend(a: seq<nat>, b: seq<nat>, x: nat)
    ensures Count(a + b, x) == Count(a, x) + Count(b, x)
  {
    CountToAppend(a, b, |a| + |b|, x);
  }

  lemma CountAppendOne(a: seq<nat>, id: nat, x: nat)
    ensures Count(a + [id], x) == Count(a, x) + (if id == x then 1 else 0)
    ensures Count([id] + a, x) == Count(a, x) + (if id == x then 1 else 0)
  {
    CountAppend(a, [id], x);
    CountAppend([id], a, x);
    assert CountTo([id], 1, x) == CountTo([id], 0, x) + (if id == x then 1 else 0);
  }

  function HeldBy(p: Phase): seq<nat> {
    match p
    case Sending(batch) => batch
    case Spilling(rest, _) => rest
    case Denying(id, _) => [id]
    case _ => []
  }

  /** How many times event x is in the hands of one of the first n flushers. */
  function HeldTo(fs: seq<Phase>, n: nat, x: nat): nat
    requires n <= |fs|
  {
    if n == 0 then 0 else HeldTo(fs, n - 1, x) + Count(HeldBy(fs[n - 1]), x)
  }

  function Held(fs: seq<Phase>, x: nat): nat {
    HeldTo(fs, |fs|, x)
  }

  /** How many of the first n overflow lines hold event x. */
  function OnDiskTo(disk: seq<Line>, n: nat, x: nat): nat
    requires n <= |disk|
  {
    if n == 0 then 0 else OnDiskTo(disk, n - 1, x) + if disk[n - 1].id == x then 1 else 0
  }

  function OnDisk(disk: seq<Line>, x: nat): nat {
    OnDiskTo(disk, |disk|, x)
  }

  /** How many times event x is buffered or was evicted from the buffer. */
  function InRing(r: Ring<nat>, x: nat): nat
    requires |r.fates| <= |r.history|
  {
    Count(Select(r.history, r.fates, Evicted), x) + Count(r.Contents(), x)
  }

  /** How many times event x has left the pipeline, for good or ill. */
  function Gone(l: Ledger, x: nat): nat {
    Count(l.accepted, x) + Count(l.settled, x) + Count(l.dropped, x)
    + Count(l.capped, x) + Count(l.failed, x) + Count(l.clobbered, x) + Count(l.orphaned, x)
  }

  /** All places an event can be, added up. */
  function Places(s: State, x: nat): nat
    requires |s.ring.fates| <= |s.ring.history|
  {
    InRing(s.ring, x) + Held(s.flushers, x) + OnDisk(s.disk, x) + Gone(s.ledger, x)
  }

  lemma {:induction false} HeldToUpdate(fs: seq<Phase>, f: nat, p: Phase, n: nat, x: nat)
    requires f < |fs| && n <= |fs|
    ensures HeldTo(fs[f := p], n, x) + (if f < n then Count(HeldBy(fs[f]), x) else 0)
            == HeldTo(fs, n, x) + (if f < n then Count(HeldBy(p), x) else 0)
  {
    if n > 0 {
      HeldToUpdate(fs, f, p, n - 1, x);
    }
  }

  lemma HeldUpdate(fs: seq<Phase>, f: nat, p: Phase, x: nat)
    requires f < |fs|
    ensures Held(fs[f := p], x) + Count(HeldBy(fs[f]), x) == Held(fs, x) + Count(HeldBy(p), x)
  {
    HeldToUpdate(fs, f, p, |fs|, x);
  }

  lemma {:induction false} OnDiskToAppend(disk: seq<Line>, line: Line, n: nat, x: nat)
    requires n <= |disk|
    ensures OnDiskTo(disk + [line], n, x) == OnDiskTo(disk, n, x)
  {
    if n > 0 {
      OnDiskToAppend(disk, line, n - 1, x);
    }
  }

  lemma OnDiskAppend(disk: seq<Line>, line: Line, x: nat)
    ensures OnDisk(disk + [line], x) == OnDisk(disk, x) + if line.id == x then 1 else 0
  {
    OnDiskToAppend(disk, line, |disk|, x);
  }

  lemma {:induction false} FilesPartition(disk: seq<Line>, day: nat, x: nat)
    ensures OnDisk(disk, x) == OnDisk(InFile(disk, day, true), x) + OnDisk(InFile(disk, day, false), x)
  {
    if disk != [] {
      var front, last := disk[..|disk| - 1], disk[|disk| - 1];
      assert disk == front + [last];
      OnDiskAppend(front, last, x);
      FilesPartition(front, day, x);
      OnDiskAppend(InFile(front, day, true), last, x);
      OnDiskAppend(InFile(front, day, false), last, x);
      assert InFile(front, day, true) + [] == InFile(front, day, true);
      assert InFile(front, day, false) + [] == InFile(front, day, false);
    }
  }

  lemma {:induction false} AmongPartition(lines: seq<Line>, read: seq<nat>, x: nat)
    ensures OnDisk(lines, x) == Count(Among(lines, read, true), x) + Count(Among(lines, read, false), x)
  {
    if lines != [] {
      var front, last := lines[..|lines| - 1], lines[|lines| - 1];
      assert lines == front + [last];
      OnDiskAppend(front, last, x);
      AmongPartition(front, read, x);
      var known, unknown := Among(front, read, true), Among(front, read, false);
      CountAppendOne(known, last.id, x);
      CountAppendOne(unknown, last.id, x);
      assert known + [] == known && unknown + [] == unknown;
    }
  }

  lemma RingPush(r: Ring<nat>, id: nat, x: nat)
    requires r.Valid()
    ensures InRing(r.Push(id), x) == InRing(r, x) + if id == x then 1 else 0
  {
    PushSelects(r, id);
    PushMeaning(r, id);
    var was := r.Contents();
    CountAppendOne(if |was| == RING_CAP then was[1..] else was, id, x);
    if |was| == RING_CAP {
      assert was == [was[0]] + was[1..];
      CountAppendOne(was[1..], was[0], x);
      CountAppendOne(Select(r.history, r.fates, Evicted), was[0], x);
    } else {
      assert Select(r.history, r.fates, Evicted) + [] == Select(r.history, r.fates, Evicted);
    }
  }

  lemma RingDrain(r: Ring<nat>, n: nat, x: nat)
    requires r.Valid()
    ensures var was := r.Contents();
            InRing(r, x) == InRing(r.Drain(n), x) + Count(was[..MinNat(n, |was|)], x)
  {
    DrainSelects(r, n);
    DrainMeaning(r, n);
    var was := r.Contents();
    var k := MinNat(n, |was|);
    assert was == was[..k] + was[k..];
    CountAppend(was[..k], was[k..], x);
  }

  lemma WriteConserves(s: State, id: nat, fd: Fd, outcome: WriteOutcome, x: nat)
    ensures var t := Write(s, id, fd, outcome);
            OnDisk(t.disk, x) + Gone(t.ledger, x) == OnDisk(s.disk, x) + Gone(s.ledger, x) + if id == x then 1 else 0
    ensures Write(s, id, fd, outcome).flushers == s.flushers && Write(s, id, fd, outcome).ring == s.ring
  {
    match outcome
    case Written =>
      if fd.age == Epoch(s, fd.day) {
        OnDiskAppend(s.disk, Line(id, fd.day), x);
      } else {
        CountAppendOne(s.ledger.orphaned, id, x);
      }
    case Capped => CountAppendOne(s.ledger.capped, id, x);
    case Failed => CountAppendOne(s.ledger.failed, id, x);
  }

  lemma DeleteConserves(s: State, day: nat, read: seq<nat>, x: nat)
    ensures var t := Delete(s, day, read);
            OnDisk(t.disk, x) + Gone(t.ledger, x) == OnDisk(s.disk, x) + Gone(s.ledger, x)
  {
    FilesPartition(s.disk, day, x);
    var removed := InFile(s.disk, day, true);
    AmongPartition(removed, read, x);
    CountAppend(s.ledger.settled, Among(removed, read, true), x);
    CountAppend(s.ledger.clobbered, Among(removed, read, false), x);
  }

  /** A change of phase moves no event unless the phases hold different events. */
  lemma MovePlaces(s: State, f: nat, p: Phase, x: nat)
    requires |s.ring.fates| <= |s.ring.history| && f < |s.flushers|
    ensures Places(Move(s, f, p), x) + Count(HeldBy(s.flushers[f]), x) == Places(s, x) + Count(HeldBy(p), x)
  {
    HeldUpdate(s.flushers, f, p, x);
  }

  lemma DrainConserves(s: State, f: nat, x: nat)
    requires s.ring.Valid() && f < |s.flushers| && s.flushers[f].Draining?
    ensures Places(DrainBy(s, f), x) == Places(s, x)
  {
    RingDrain(s.ring, MAX_SEND_BATCH, x);
    var content := s.ring.Contents();
    var batch := content[..MinNat(MAX_SEND_BATCH, |content|)];
    var s' := s.(ring := s.ring.Drain(MAX_SEND_BATCH));
    MovePlaces(s', f, if batch == [] then Home(f) else Sending(batch), x);
  }

  lemma SendConserves(s: State, f: nat, reply: Reply, x: nat)
    requires s.ring.Valid() && f < |s.flushers| && s.flushers[f].Sending?
    ensures Places(SendBy(s, f, reply), x) == Places(s, x)
  {
    var t := SendBy(s, f, reply);
    HeldUpdate(s.flushers, f, t.flushers[f], x);
    if reply.Accepted? {
      CountAppend(s.ledger.accepted, s.flushers[f].batch, x);
    } else if !reply.TransportError? {
      CountAppend(s.ledger.dropped, s.flushers[f].batch, x);
    }
    assert t.ring == s.ring && t.flushers == s.flushers[f := t.flushers[f]] && t.disk == s.disk;
  }

  lemma AppendConserves(s: State, f: nat, outcome: WriteOutcome, x: nat)
    requires s.ring.Valid() && Enabled(s, Append(f, outcome))
    ensures Places(AppendBy(s, f, outcome), x) == Places(s, x)
  {
    var p := s.flushers[f];
    var s' := Write(s, NextId(p), p.fd.value, outcome);
    WritePlaces(s, NextId(p), p.fd.value, outcome, x);
    MovePlaces(s', f, AfterLine(f, p), x);
    LineLeavesHand(f, p, x);
    AppendMoves(s, f, outcome);
    assert Places(AppendBy(s, f, outcome), x) == Places(Move(s', f, AfterLine(f, p)), x);
  }

  lemma LineLeavesHand(f: nat, p: Phase, x: nat)
    requires Writes(p)
    ensures Count(HeldBy(p), x) == Count(HeldBy(AfterLine(f, p)), x) + if NextId(p) == x then 1 else 0
  {
    if p.Denying? {
      CountAppendOne([], p.id, x);
      assert [] + [p.id] == [p.id];
    } else {
      SplitFirst(p.rest, HeldBy(AfterLine(f, p)), x);
    }
  }

  lemma WritePlaces(s: State, id: nat, fd: Fd, outcome: WriteOutcome, x: nat)
    requires s.ring.Valid()
    ensures var t := Write(s, id, fd, outcome);
            t.ring == s.ring && t.flushers == s.flushers && Places(t, x) == Places(s, x) + if id == x then 1 else 0
  {
    WriteConserves(s, id, fd, outcome, x);
  }

  /** Apart from the bookkeeping of the loop, an append is a write and a change of phase. */
  lemma AppendMoves(s: State, f: nat, outcome: WriteOutcome)
    requires Enabled(s, Append(f, outcome))
    ensures var p := s.flushers[f];
            var t := Move(Write(s, NextId(p), p.fd.value, outcome), f, AfterLine(f, p));
            AppendBy(s, f, outcome) == t.(endedEmpty := AppendBy(s, f, outcome).endedEmpty)
  {
  }

  lemma SplitFirst(ids: seq<nat>, tail: seq<nat>, x: nat)
    requires ids != [] && tail == ids[1..]
    ensures Count(ids, x) == Count(tail, x) + if ids[0] == x then 1 else 0
  {
    assert ids == [ids[0]] + tail;
    CountAppendOne(tail, ids[0], x);
  }

  lemma DeletePlaces(s: State, day: nat, read: seq<nat>, x: nat)
    requires s.ring.Valid()
    ensures var t := Delete(s, day, read);
            t.ring == s.ring && t.flushers == s.flushers && Places(t, x) == Places(s, x)
  {
    DeleteConserves(s, day, read, x);
  }

  lemma UnlinkConserves(s: State, f: nat, ok: bool, x: nat)
    requires s.ring.Valid() && f < |s.flushers| && s.flushers[f].Replaying?
    ensures Places(UnlinkBy(s, f, ok), x) == Places(s, x)
  {
    var p := s.flushers[f];
    if ok {
      DeletePlaces(s, p.day, p.lines, x);
      MovePlaces(Delete(s, p.day, p.lines), f, Files(p.days), x);
    } else {
      MovePlaces(s, f, Files(p.days), x);
    }
  }

  lemma PushConserves(s: State, x: nat)
    requires s.ring.Valid()
    ensures Places(Do(s, Push), x) == Places(s, x) + if s.next == x then 1 else 0
  {
    RingPush(s.ring, s.next, x);
  }

  lemma DenyConserves(s: State, f: nat, x: nat)
    requires s.ring.Valid() && Enabled(s, Deny(f))
    ensures Places(Do(s, Deny(f)), x) == Places(s, x) + if s.next == x then 1 else 0
  {
    MovePlaces(s, f, Denying(s.next, None), x);
    CountAppendOne([], s.next, x);
    assert [] + [s.next] == [s.next];
  }

  /** These steps move events; all others merely change a phase or a flag. */
  predicate MovesEvents(a: Action) {
    a.Push? || a.Deny? || a.Drain? || a.Send? || a.Append? || a.Unlink?
  }

  lemma ReadConserves(s: State, f: nat, ok: bool, x: nat)
    requires s.ring.Valid() && Enabled(s, ReadFile(f, ok))
    ensures Places(ReadBy(s, f, ok), x) == Places(s, x)
  {
    MovePlaces(s, f, ReadBy(s, f, ok).flushers[f], x);
  }

  lemma ChunkConserves(s: State, f: nat, ok: bool, x: nat)
    requires s.ring.Valid() && Enabled(s, SendChunk(f, ok))
    ensures Places(SendChunkBy(s, f, ok), x) == Places(s, x)
  {
    var p := SendChunkBy(s, f, ok).flushers[f];
    MovePlaces(s, f, p, x);
    var t := SendChunkBy(s, f, ok);
    assert t.ring == s.ring && t.flushers == s.flushers[f := p] && t.disk == s.disk && t.ledger == s.ledger;
  }

  lemma FlushStepConserves(s: State, a: Action, x: nat)
    requires s.ring.Valid() && Enabled(s, a) && !MovesEvents(a) && !OfLoop(a)
    ensures Places(Do(s, a), x) == Places(s, x)
  {
    match a
    case CallFlushAll(f) => MovePlaces(s, f, Draining, x);
    case OpenFile(f, day) => MovePlaces(s, f, OpenBy(s, f, day).flushers[f], x);
    case List(f, days) => MovePlaces(s, f, Files(days), x);
    case ReadFile(f, ok) => ReadConserves(s, f, ok, x);
    case SendChunk(f, ok) => ChunkConserves(s, f, ok, x);
    case EndReplay(f) => MovePlaces(s, f, Draining, x);
    case ReplayRaises(f) => MovePlaces(s, f, Home(f), x);
  }

  predicate OfLoop(a: Action) {
    a.LoopTop? || a.WaitTriggered? || a.WaitTimesOut? || a.Clear? || a.SetStop? || a.WakeUp?
  }

  lemma LoopStepConserves(s: State, a: Action, x: nat)
    requires s.ring.Valid() && Enabled(s, a) && OfLoop(a)
    ensures Places(Do(s, a), x) == Places(s, x)
  {
    match a
    case LoopTop => MovePlaces(s, 0, if s.stop then Exited else Waiting, x);
    case WaitTriggered => MovePlaces(s, 0, Clearing, x);
    case WaitTimesOut => MovePlaces(s, 0, Draining, x);
    case Clear => MovePlaces(s, 0, Draining, x);
    case SetStop =>
    case WakeUp =>
  }

  /** The books balance over every single step: a new event enters once, an old one only changes place. */
  lemma StepConserves(s: State, a: Action, x: nat)
    requires s.ring.Valid() && Enabled(s, a)
    ensures Do(s, a).ring.Valid()
    ensures Places(Do(s, a), x)
            == Places(s, x) + if (a.Push? || a.Deny?) && s.next == x then 1 else 0
  {
    RingStaysValid(s, a);
    match a {
      case Push => PushConserves(s, x);
      case Deny(f) => DenyConserves(s, f, x);
      case Drain(f) => DrainConserves(s, f, x);
      case Send(f, reply) => SendConserves(s, f, reply, x);
      case Append(f, outcome) => AppendConserves(s, f, outcome, x);
      case Unlink(f, ok) => UnlinkConserves(s, f, ok, x);
      case _ =>
        if OfLoop(a) {
          LoopStepConserves(s, a, x);
        } else {
          FlushStepConserves(s, a, x);
        }
    }
  }

  // ------------------------------------------------------------- whole runs

  ghost predicate CanRun(s: State, actions: seq<Action>)
    requires s.ring.Valid()
    decreases |actions|
  {
    actions == [] || (Enabled(s, actions[0]) && (RingStaysValid(s, actions[0]); CanRun(Do(s, actions[0]), actions[1..])))
  }

  ghost function Run(s: State, actions: seq<Action>): (t: State)
    requires s.ring.Valid() && CanRun(s, actions)
    ensures t.ring.Valid()
    decreases |actions|
  {
    if actions == [] then s else
      RingStaysValid(s, actions[0]);
      Run(Do(s, actions[0]), actions[1..])
  }

  /** The states a run goes through, the first and the last included. */
  ghost function Trace(s: State, actions: seq<Action>): (states: seq<State>)
    requires s.ring.Valid() && CanRun(s, actions)
    ensures |states| == |actions| + 1
    decreases |actions|
  {
    if actions == [] then [s] else
      RingStaysValid(s, actions[0]);
      [s] + Trace(Do(s, actions[0]), actions[1..])
  }

  lemma {:induction false} TraceEnds(s: State, actions: seq<Action>)
    requires s.ring.Valid() && CanRun(s, actions)
    ensures Trace(s, actions)[0] == s && Trace(s, actions)[|actions|] == Run(s, actions)
    decreases |actions|
  {
    if actions != [] {
      RingStaysValid(s, actions[0]);
      TraceEnds(Do(s, actions[0]), actions[1..]);
    }
  }

  lemma {:induction false} TraceStep(s: State, actions: seq<Action>, i: nat)
    requires s.ring.Valid() && CanRun(s, actions) && i < |actions|
    ensures var states := Trace(s, actions);
            states[i].ring.Valid() && Enabled(states[i], actions[i]) && states[i + 1] == Do(states[i], actions[i])
    decreases |actions|
  {
    RingStaysValid(s, actions[0]);
    if i == 0 {
      TraceEnds(Do(s, actions[0]), actions[1..]);
    } else {
      TraceStep(Do(s, actions[0]), actions[1..], i - 1);
    }
  }

  lemma RingStaysValid(s: State, a: Action)
    requires s.ring.Valid() && Enabled(s, a)
    ensures Do(s, a).ring.Valid()
  {
    match a
    case Push => PushMeaning(s.ring, s.next);
    case Drain(f) => DrainMeaning(s.ring, MAX_SEND_BATCH);
    case _ =>
  }

  /** Only pushes, drains and the two actions on the flag change the buffer. */
  lemma RingUntouched(s: State, a: Action)
    requires s.ring.Valid() && Enabled(s, a) && !a.Push? && !a.Drain? && !a.Clear? && !a.WakeUp?
    ensures Do(s, a).ring == s.ring
  {
    if !OfLoop(a) {
      match a
      case Send(f, reply) =>
      case Append(f, outcome) =>
      case _ =>
    }
  }

  /** Every event that exists is in exactly one place, and no other event is anywhere. */
  ghost predicate Conserved(s: State) {
    s.ring.Valid() && forall x: nat :: Places(s, x) == if x < s.next then 1 else 0
  }

  lemma StepKeepsConserved(s: State, a: Action)
    requires Conserved(s) && Enabled(s, a)
    ensures Conserved(Do(s, a))
  {
    RingStaysValid(s, a);
    NextGrows(s, a);
    var t := Do(s, a);
    forall x: nat ensures Places(t, x) == if x < t.next then 1 else 0 {
      StepConserves(s, a, x);
      assert Places(s, x) == if x < s.next then 1 else 0;
    }
  }

  lemma NextGrows(s: State, a: Action)
    requires s.ring.Valid() && Enabled(s, a)
    ensures Do(s, a).next == s.next + if a.Push? || a.Deny? then 1 else 0
  {
    match a
    case Send(f, reply) =>
    case Append(f, outcome) => AppendMoves(s, f, outcome);
    case Unlink(f, ok) =>
    case _ =>
  }

  lemma {:induction false} RunConserves(s: State, actions: seq<Action>)
    requires Conserved(s) && CanRun(s, actions)
    ensures Conserved(Run(s, actions))
    decreases |actions|
  {
    if actions != [] {
      StepKeepsConserved(s, actions[0]);
      RunConserves(Do(s, actions[0]), actions[1..]);
    }
  }

  lemma {:induction false} HomesHoldNothing(fs: seq<Phase>, n: nat, x: nat)
    requires n <= |fs| && forall i :: 0 <= i < |fs| ==> HeldBy(fs[i]) == []
    ensures HeldTo(fs, n, x) == 0
  {
    if n > 0 {
      HomesHoldNothing(fs, n - 1, x);
    }
  }

  lemma InitConserved(n: nat)
    requires n >= 1
    ensures Conserved(Init(n))
  {
    var s := Init(n);
    forall x: nat ensures Places(s, x) == 0 {
      HomesHoldNothing(s.flushers, |s.flushers|, x);
    }
  }

  /**
   Conservation over every interleaving of any number of threads: each event ever pushed, and each
   denial written straight to disk, is at any time in exactly one of: evicted, buffered, in the
   hands of one thread, on disk, accepted, replayed and deleted, dropped on an API or unexpected
   error, refused by a full file, lost to a failing write, deleted unread, or written to a deleted file.
   */
  lemma EveryEventIsSomewhereOnce(n: nat, actions: seq<Action>, x: nat)
    requires n >= 1 && CanRun(Init(n), actions)
    ensures var s := Run(Init(n), actions);
            InRing(s.ring, x) + Held(s.flushers, x) + OnDisk(s.disk, x) + Gone(s.ledger, x)
            == if x < s.next then 1 else 0
  {
    var s := Init(n);
    InitConserved(n);
    RunConserves(s, actions);
    assert Places(Run(s, actions), x) == if x < Run(s, actions).next then 1 else 0;
  }

  lemma {:induction false} HeldByTwo(fs: seq<Phase>, f: nat, g: nat, n: nat, x: nat)
    requires f < g < n <= |fs|
    ensures HeldTo(fs, n, x) >= Count(HeldBy(fs[f]), x) + Count(HeldBy(fs[g]), x)
  {
    if g == n - 1 {
      HeldByOne(fs, f, n - 1, x);
    } else {
      HeldByTwo(fs, f, g, n - 1, x);
    }
  }

  lemma {:induction false} HeldByOne(fs: seq<Phase>, f: nat, n: nat, x: nat)
    requires f < n <= |fs|
    ensures HeldTo(fs, n, x) >= Count(HeldBy(fs[f]), x)
  {
    if f < n - 1 {
      HeldByOne(fs, f, n - 1, x);
    }
  }

  lemma {:induction false} CountIn(ids: seq<nat>, n: nat, x: nat)
    requires n <= |ids| && x in ids[..n]
    ensures CountTo(ids, n, x) >= 1
  {
    if ids[n - 1] != x {
      assert x in ids[..n - 1];
      CountIn(ids, n - 1, x);
    }
  }

  /** Two flushers never hold the same event, however their drains interleave. */
  lemma FlushersAreDisjoint(n: nat, actions: seq<Action>, f: nat, g: nat, x: nat)
    requires n >= 1 && CanRun(Init(n), actions)
    requires f < g < |Run(Init(n), actions).flushers|
    ensures var fs := Run(Init(n), actions).flushers; !(x in HeldBy(fs[f]) && x in HeldBy(fs[g]))
  {
    var fs := Run(Init(n), actions).flushers;
    EveryEventIsSomewhereOnce(n, actions, x);
    HeldByTwo(fs, f, g, |fs|, x);
    if x in HeldBy(fs[f]) && x in HeldBy(fs[g]) {
      var a, b := HeldBy(fs[f]), HeldBy(fs[g]);
      assert a[..|a|] == a && b[..|b|] == b;
      CountIn(a, |a|, x);
      CountIn(b, |b|, x);
    }
  }

  // ------------------------------------------------- order, batches and replay

  ghost predicate Increasing(ids: seq<nat>, bound: nat) {
    && (forall i, j :: 0 <= i < j < |ids| ==> ids[i] < ids[j])
    && (forall i :: 0 <= i < |ids| ==> ids[i] < bound)
  }

  ghost predicate PhaseOk(p: Phase, replayed: seq<nat>) {
    match p
    case Sending(batch) => 0 < |batch| <= MAX_SEND_BATCH
    case Spilling(rest, _) => 0 < |rest| <= MAX_SEND_BATCH
    case Replaying(_, _, lines, sent) => sent <= |lines| && forall i :: 0 <= i < sent ==> lines[i] in replayed
    case _ => true
  }

  ghost predicate Orderly(s: State) {
    && s.ring.Valid() && Increasing(s.ring.history, s.next)
    && (forall f :: 0 <= f < |s.flushers| ==> PhaseOk(s.flushers[f], s.sent))
    && (forall x :: x in s.ledger.settled ==> x in s.sent)
  }

  lemma {:induction false} AmongIsRead(lines: seq<Line>, read: seq<nat>)
    ensures forall x :: x in Among(lines, read, true) ==> x in read
  {
    if lines != [] {
      AmongIsRead(lines[..|lines| - 1], read);
    }
  }

  lemma ChunkOrderly(s: State, f: nat, ok: bool)
    requires Orderly(s) && Enabled(s, SendChunk(f, ok))
    ensures Orderly(SendChunkBy(s, f, ok))
  {
    var p := s.flushers[f];
    var sent := p.sent + MinNat(MAX_SEND_BATCH, |p.lines| - p.sent);
    var t := SendChunkBy(s, f, ok);
    if ok {
      forall i | 0 <= i < sent ensures p.lines[i] in t.sent {
        if i >= p.sent {
          assert p.lines[i] == p.lines[p.sent..sent][i - p.sent];
        }
      }
    }
    forall g | 0 <= g < |t.flushers| ensures PhaseOk(t.flushers[g], t.sent) {
      assert PhaseOk(s.flushers[g], s.sent);
    }
  }

  lemma UnlinkOrderly(s: State, f: nat, ok: bool)
    requires Orderly(s) && Enabled(s, Unlink(f, ok))
    ensures Orderly(UnlinkBy(s, f, ok))
  {
    var p := s.flushers[f];
    AmongIsRead(InFile(s.disk, p.day, true), p.lines);
    assert PhaseOk(p, s.sent);
  }

  lemma MoveOrderly(s: State, f: nat, p: Phase)
    requires Orderly(s) && f < |s.flushers| && PhaseOk(p, s.sent)
    ensures Orderly(Move(s, f, p))
  {
  }

  lemma DrainOrderly(s: State, f: nat)
    requires Orderly(s) && Enabled(s, Drain(f))
    ensures Orderly(DrainBy(s, f))
  {
    DrainMeaning(s.ring, MAX_SEND_BATCH);
    var batch := s.ring.Contents()[..MinNat(MAX_SEND_BATCH, |s.ring.Contents()|)];
    MoveOrderly(s.(ring := s.ring.Drain(MAX_SEND_BATCH)), f, if batch == [] then Home(f) else Sending(batch));
  }

  lemma SendOrderly(s: State, f: nat, reply: Reply)
    requires Orderly(s) && Enabled(s, Send(f, reply))
    ensures Orderly(SendBy(s, f, reply))
  {
    assert PhaseOk(s.flushers[f], s.sent);
    if reply.Accepted? {
      MoveOrderly(s, f, Listing);
    } else if reply.TransportError? {
      MoveOrderly(s, f, Spilling(s.flushers[f].batch, None));
    } else {
      MoveOrderly(s, f, Home(f));
    }
  }

  lemma AppendOrderly(s: State, f: nat, outcome: WriteOutcome)
    requires Orderly(s) && Enabled(s, Append(f, outcome))
    ensures Orderly(AppendBy(s, f, outcome))
  {
    var p := s.flushers[f];
    assert PhaseOk(p, s.sent);
    AppendMoves(s, f, outcome);
    MoveOrderly(Write(s, NextId(p), p.fd.value, outcome), f, AfterLine(f, p));
  }

  lemma DenyOrderly(s: State, f: nat)
    requires Orderly(s) && Enabled(s, Deny(f))
    ensures Orderly(Do(s, Deny(f)))
  {
    MoveOrderly(s, f, Denying(s.next, None));
  }

  lemma OpenOrderly(s: State, f: nat, day: nat)
    requires Orderly(s) && Enabled(s, OpenFile(f, day))
    ensures Orderly(OpenBy(s, f, day))
  {
    assert PhaseOk(s.flushers[f], s.sent);
    MoveOrderly(s, f, OpenBy(s, f, day).flushers[f]);
  }

  lemma PushOrderly(s: State)
    requires Orderly(s)
    ensures Orderly(Do(s, Push))
  {
    PushMeaning(s.ring, s.next);
  }

  lemma LoopStepOrderly(s: State, a: Action)
    requires Orderly(s) && Enabled(s, a) && OfLoop(a)
    ensures Orderly(Do(s, a))
  {
    match a
    case LoopTop => MoveOrderly(s, 0, if s.stop then Exited else Waiting);
    case WaitTriggered => MoveOrderly(s, 0, Clearing);
    case WaitTimesOut => MoveOrderly(s, 0, Draining);
    case Clear => MoveOrderly(s.(ring := s.ring.(flushNow := false)), 0, Draining);
    case SetStop =>
    case WakeUp =>
  }

  lemma EventStepOrderly(s: State, a: Action)
    requires Orderly(s) && Enabled(s, a) && MovesEvents(a)
    ensures Orderly(Do(s, a))
  {
    match a
    case Push => PushOrderly(s);
    case Deny(f) => DenyOrderly(s, f);
    case Drain(f) => DrainOrderly(s, f);
    case Send(f, reply) => SendOrderly(s, f, reply);
    case Append(f, outcome) => AppendOrderly(s, f, outcome);
    case Unlink(f, ok) => UnlinkOrderly(s, f, ok);
  }

  lemma StepOrderly(s: State, a: Action)
    requires Orderly(s) && Enabled(s, a)
    ensures Orderly(Do(s, a))
  {
    if OfLoop(a) {
      LoopStepOrderly(s, a);
    } else if MovesEvents(a) {
      EventStepOrderly(s, a);
    } else {
      match a
      case SendChunk(f, ok) => ChunkOrderly(s, f, ok);
      case OpenFile(f, day) => OpenOrderly(s, f, day);
      case CallFlushAll(f) => MoveOrderly(s, f, Draining);
      case List(f, days) => MoveOrderly(s, f, Files(days));
      case ReadFile(f, ok) => MoveOrderly(s, f, ReadBy(s, f, ok).flushers[f]);
      case EndReplay(f) => MoveOrderly(s, f, Draining);
      case ReplayRaises(f) => MoveOrderly(s, f, Home(f));
    }
  }

  lemma {:induction false} RunOrderly(s: State, actions: seq<Action>)
    requires Orderly(s) && CanRun(s, actions)
    ensures Orderly(Run(s, actions))
    decreases |actions|
  {
    if actions != [] {
      StepOrderly(s, actions[0]);
      RunOrderly(Do(s, actions[0]), actions[1..]);
    }
  }

  lemma {:induction false} SelectIncreasing(history: seq<nat>, fates: seq<Fate>, bound: nat)
    requires |fates| <= |history| && Increasing(history, bound)
    ensures Increasing(Select(history, fates, Drained), if fates == [] then 0 else history[|fates| - 1] + 1)
    decreases |fates|
  {
    if fates != [] {
      SelectIncreasing(history, fates[..|fates| - 1], bound);
    }
  }

  /** The events drained so far, in the order of the drains. */
  function DrainedBy(r: Ring<nat>): seq<nat>
    requires |r.fates| <= |r.history|
  {
    Select(r.history, r.fates, Drained)
  }

  ghost predicate PieceOf(part: seq<nat>, all: seq<nat>) {
    exists i: nat :: IsAt(part, all, i)
  }

  ghost predicate IsAt(part: seq<nat>, all: seq<nat>, i: nat) {
    i + |part| <= |all| && all[i..i + |part|] == part
  }

  /** The drained events in a thread's hands. */
  function BatchOf(p: Phase): seq<nat> {
    match p
    case Sending(batch) => batch
    case Spilling(rest, _) => rest
    case _ => []
  }

  /** What a flusher holds is a contiguous piece of what was drained. */
  ghost predicate HoldPieces(s: State) {
    s.ring.Valid() && forall f :: 0 <= f < |s.flushers| ==> PieceOf(BatchOf(s.flushers[f]), DrainedBy(s.ring))
  }

  lemma PieceExtends(part: seq<nat>, all: seq<nat>, more: seq<nat>)
    requires PieceOf(part, all)
    ensures PieceOf(part, all + more)
  {
    var i: nat :| IsAt(part, all, i);
    assert IsAt(part, all + more, i);
  }

  lemma LastPiece(all: seq<nat>, more: seq<nat>)
    ensures PieceOf(more, all + more) && PieceOf([], all)
  {
    assert IsAt(more, all + more, |all|);
    assert IsAt([], all, 0);
  }

  lemma TailPiece(part: seq<nat>, all: seq<nat>)
    requires part != [] && PieceOf(part, all)
    ensures PieceOf(part[1..], all)
  {
    var i: nat :| IsAt(part, all, i);
    assert IsAt(part[1..], all, i + 1);
  }

  lemma MovePieces(s: State, f: nat, p: Phase)
    requires HoldPieces(s) && f < |s.flushers| && PieceOf(BatchOf(p), DrainedBy(s.ring))
    ensures HoldPieces(Move(s, f, p))
  {
  }

  /** The drained sequence only grows at its end, and pieces stay pieces. */
  lemma RingPieces(s: State, r: Ring<nat>, more: seq<nat>)
    requires HoldPieces(s) && r.Valid() && DrainedBy(r) == DrainedBy(s.ring) + more
    ensures HoldPieces(s.(ring := r))
  {
    forall f | 0 <= f < |s.flushers| ensures PieceOf(BatchOf(s.flushers[f]), DrainedBy(r)) {
      PieceExtends(BatchOf(s.flushers[f]), DrainedBy(s.ring), more);
    }
  }

  lemma PushPieces(s: State)
    requires HoldPieces(s)
    ensures HoldPieces(Do(s, Push))
  {
    PushSelects(s.ring, s.next);
    PushMeaning(s.ring, s.next);
    RingPieces(s, s.ring.Push(s.next), []);
  }

  lemma DrainPieces(s: State, f: nat)
    requires HoldPieces(s) && Enabled(s, Drain(f))
    ensures HoldPieces(DrainBy(s, f))
  {
    var batch := s.ring.Contents()[..MinNat(MAX_SEND_BATCH, |s.ring.Contents()|)];
    DrainSelects(s.ring, MAX_SEND_BATCH);
    DrainMeaning(s.ring, MAX_SEND_BATCH);
    RingPieces(s, s.ring.Drain(MAX_SEND_BATCH), batch);
    LastPiece(DrainedBy(s.ring), batch);
    LastPiece(DrainedBy(s.ring) + batch, []);
    MovePieces(s.(ring := s.ring.Drain(MAX_SEND_BATCH)), f, if batch == [] then Home(f) else Sending(batch));
  }

  lemma SendPieces(s: State, f: nat, reply: Reply)
    requires HoldPieces(s) && Enabled(s, Send(f, reply))
    ensures HoldPieces(SendBy(s, f, reply))
  {
    LastPiece(DrainedBy(s.ring), []);
    MovePieces(s, f, SendBy(s, f, reply).flushers[f]);
  }

  lemma AppendPieces(s: State, f: nat, outcome: WriteOutcome)
    requires HoldPieces(s) && Enabled(s, Append(f, outcome))
    ensures HoldPieces(AppendBy(s, f, outcome))
  {
    var p := s.flushers[f];
    var s' := Write(s, NextId(p), p.fd.value, outcome);
    assert HoldPieces(s');
    LastPiece(DrainedBy(s.ring), []);
    if p.Spilling? {
      TailPiece(p.rest, DrainedBy(s.ring));
    }
    AppendMoves(s, f, outcome);
    MovePieces(s', f, AfterLine(f, p));
  }

  lemma DenyPieces(s: State, f: nat)
    requires HoldPieces(s) && Enabled(s, Deny(f))
    ensures HoldPieces(Do(s, Deny(f)))
  {
    LastPiece(DrainedBy(s.ring), []);
    MovePieces(s, f, Denying(s.next, None));
  }

  lemma UnlinkPieces(s: State, f: nat, ok: bool)
    requires HoldPieces(s) && Enabled(s, Unlink(f, ok))
    ensures HoldPieces(UnlinkBy(s, f, ok))
  {
    LastPiece(DrainedBy(s.ring), []);
    var p := s.flushers[f];
    MovePieces(if ok then Delete(s, p.day, p.lines) else s, f, Files(p.days));
  }

  lemma HeldUnchanged(s: State, a: Action, f: nat)
    requires s.ring.Valid() && Enabled(s, a) && !MovesEvents(a) && f < |Do(s, a).flushers|
    ensures f < |s.flushers| && BatchOf(Do(s, a).flushers[f]) == BatchOf(s.flushers[f])
    ensures DrainedBy(Do(s, a).ring) == DrainedBy(s.ring)
  {
    if OfLoop(a) {
      LoopHolds(s, a, f);
    } else {
      match a
      case OpenFile(g, day) =>
      case ReadFile(g, ok) =>
      case SendChunk(g, ok) =>
      case _ =>
    }
  }

  lemma LoopHolds(s: State, a: Action, f: nat)
    requires s.ring.Valid() && Enabled(s, a) && OfLoop(a) && f < |Do(s, a).flushers|
    ensures f < |s.flushers| && BatchOf(Do(s, a).flushers[f]) == BatchOf(s.flushers[f])
    ensures DrainedBy(Do(s, a).ring) == DrainedBy(s.ring)
  {
  }

  lemma StepKeepsPieces(s: State, a: Action)
    requires HoldPieces(s) && Enabled(s, a)
    ensures HoldPieces(Do(s, a))
  {
    if MovesEvents(a) {
      match a
      case Push => PushPieces(s);
      case Deny(f) => DenyPieces(s, f);
      case Drain(f) => DrainPieces(s, f);
      case Send(f, reply) => SendPieces(s, f, reply);
      case Append(f, outcome) => AppendPieces(s, f, outcome);
      case Unlink(f, ok) => UnlinkPieces(s, f, ok);
    } else {
      RingStaysValid(s, a);
      var t := Do(s, a);
      forall f | 0 <= f < |t.flushers| ensures PieceOf(BatchOf(t.flushers[f]), DrainedBy(t.ring)) {
        HeldUnchanged(s, a, f);
      }
    }
  }

  lemma {:induction false} RunKeepsPieces(s: State, actions: seq<Action>)
    requires HoldPieces(s) && CanRun(s, actions)
    ensures HoldPieces(Run(s, actions))
    decreases |actions|
  {
    if actions != [] {
      StepKeepsPieces(s, actions[0]);
      RunKeepsPieces(Do(s, actions[0]), actions[1..]);
    }
  }

  lemma InitPieces(n: nat)
    requires n >= 1
    ensures HoldPieces(Init(n))
  {
    LastPiece([], []);
    assert forall f :: 0 <= f < n ==> BatchOf(Init(n).flushers[f]) == [];
  }

  /**
   Whatever the interleaving: events are drained in the order they were pushed, none twice; what a
   flusher holds, to send or to write to disk, is a contiguous piece of that order, of at most a
   hundred events, so the size check of log_batch never fires; and an event leaves the disk as settled
   only after the server has accepted it.
   */
  lemma FlushingIsOrderly(n: nat, actions: seq<Action>)
    requires n >= 1 && CanRun(Init(n), actions)
    ensures var s := Run(Init(n), actions);
            var drained := DrainedBy(s.ring);
            && (forall i, j :: 0 <= i < j < |drained| ==> drained[i] < drained[j])
            && (forall f :: 0 <= f < |s.flushers| ==> |BatchOf(s.flushers[f])| <= MAX_SEND_BATCH)
            && (forall f :: 0 <= f < |s.flushers| ==> PieceOf(BatchOf(s.flushers[f]), drained))
            && (forall x :: x in s.ledger.settled ==> x in s.sent)
  {
    RunOrderly(Init(n), actions);
    InitPieces(n);
    RunKeepsPieces(Init(n), actions);
    var s := Run(Init(n), actions);
    SelectIncreasing(s.ring.history, s.ring.fates, s.next);
    forall f | 0 <= f < |s.flushers|
      ensures |BatchOf(s.flushers[f])| <= MAX_SEND_BATCH
    {
      assert PhaseOk(s.flushers[f], s.sent);
    }
  }

  // ------------------------------------------------------- no lost wake-up

  /** The background thread is between two flushes. */
  predicate BetweenFlushes(p: Phase) {
    p.AtTop? || p.Waiting? || p.Clearing?
  }

  ghost predicate WakeUpKept(s: State) {
    && s.ring.Valid() && |s.flushers| >= 1 && !s.flushers[0].Denying?
    && (BetweenFlushes(s.flushers[0]) && s.endedEmpty && |s.ring.Contents()| >= FLUSH_THRESHOLD ==> s.ring.flushNow)
    && (if s.stop then s.flushesAfterStop <= 1 else s.flushesAfterStop == 0)
    && (s.flushers[0].Waiting? || s.flushers[0].Clearing? ==> s.flushesAfterStop == 0)
  }

  lemma PushKeepsWakeUp(s: State)
    requires WakeUpKept(s)
    ensures WakeUpKept(Do(s, Push))
  {
    PushMeaning(s.ring, s.next);
  }

  lemma DrainKeepsWakeUp(s: State, f: nat)
    requires WakeUpKept(s) && Enabled(s, Drain(f))
    ensures WakeUpKept(DrainBy(s, f))
  {
    DrainMeaning(s.ring, MAX_SEND_BATCH);
  }

  lemma MoveKeepsWakeUp(s: State, f: nat, p: Phase)
    requires WakeUpKept(s) && f < |s.flushers| && !BetweenFlushes(p) && (p.Denying? ==> f > 0)
    ensures WakeUpKept(Move(s, f, p))
  {
  }

  lemma OtherThreadKeepsWakeUp(s: State, f: nat, p: Phase)
    requires WakeUpKept(s) && 0 < f < |s.flushers|
    ensures WakeUpKept(Move(s, f, p))
  {
  }

  lemma FailedFlushKeepsWakeUp(s: State, f: nat)
    requires WakeUpKept(s) && f < |s.flushers|
    ensures WakeUpKept(EndFlush(s, f, false))
  {
  }

  lemma SendKeepsWakeUp(s: State, f: nat, reply: Reply)
    requires WakeUpKept(s) && Enabled(s, Send(f, reply))
    ensures WakeUpKept(SendBy(s, f, reply))
  {
    if reply.Accepted? || reply.TransportError? {
      MoveKeepsWakeUp(s, f, SendBy(s, f, reply).flushers[f]);
    } else {
      FailedFlushKeepsWakeUp(s, f);
    }
  }

  lemma AppendKeepsWakeUp(s: State, f: nat, outcome: WriteOutcome)
    requires WakeUpKept(s) && Enabled(s, Append(f, outcome))
    ensures WakeUpKept(AppendBy(s, f, outcome))
  {
    var p := s.flushers[f];
    var s' := Write(s, NextId(p), p.fd.value, outcome);
    assert WakeUpKept(s');
    if p.Spilling? && |p.rest| == 1 {
      FailedFlushKeepsWakeUp(s', f);
    } else if p.Spilling? {
      MoveKeepsWakeUp(s', f, AfterLine(f, p));
    } else {
      OtherThreadKeepsWakeUp(s', f, AfterLine(f, p));
    }
  }

  lemma UnlinkKeepsWakeUp(s: State, f: nat, ok: bool)
    requires WakeUpKept(s) && Enabled(s, Unlink(f, ok))
    ensures WakeUpKept(UnlinkBy(s, f, ok))
  {
    var p := s.flushers[f];
    var s' := if ok then Delete(s, p.day, p.lines) else s;
    assert WakeUpKept(s');
    MoveKeepsWakeUp(s', f, Files(p.days));
  }

  lemma ReplayKeepsWakeUp(s: State, a: Action)
    requires WakeUpKept(s) && Enabled(s, a)
    requires !OfLoop(a) && !a.Push? && !a.Deny? && !a.Drain? && !a.Send? && !a.Append?
    ensures WakeUpKept(Do(s, a))
  {
    match a
    case OpenFile(f, day) => MoveKeepsWakeUp(s, f, OpenBy(s, f, day).flushers[f]);
    case CallFlushAll(f) => MoveKeepsWakeUp(s, f, Draining);
    case List(f, days) => MoveKeepsWakeUp(s, f, Files(days));
    case ReadFile(f, ok) => MoveKeepsWakeUp(s, f, ReadBy(s, f, ok).flushers[f]);
    case SendChunk(f, ok) => MoveKeepsWakeUp(s, f, SendChunkBy(s, f, ok).flushers[f]);
    case Unlink(f, ok) => UnlinkKeepsWakeUp(s, f, ok);
    case EndReplay(f) => MoveKeepsWakeUp(s, f, Draining);
    case ReplayRaises(f) => FailedFlushKeepsWakeUp(s, f);
  }

  lemma LoopKeepsWakeUp(s: State, a: Action)
    requires WakeUpKept(s) && Enabled(s, a) && OfLoop(a)
    ensures WakeUpKept(Do(s, a))
  {
  }

  lemma EventStepKeepsWakeUp(s: State, a: Action)
    requires WakeUpKept(s) && Enabled(s, a) && (a.Push? || a.Deny? || a.Drain? || a.Send? || a.Append?)
    ensures WakeUpKept(Do(s, a))
  {
    match a
    case Push => PushKeepsWakeUp(s);
    case Deny(f) => MoveKeepsWakeUp(s, f, Denying(s.next, None));
    case Drain(f) => DrainKeepsWakeUp(s, f);
    case Send(f, reply) => SendKeepsWakeUp(s, f, reply);
    case Append(f, outcome) => AppendKeepsWakeUp(s, f, outcome);
  }

  lemma StepKeepsWakeUp(s: State, a: Action)
    requires WakeUpKept(s) && Enabled(s, a)
    ensures WakeUpKept(Do(s, a))
  {
    if OfLoop(a) {
      LoopKeepsWakeUp(s, a);
    } else if a.Push? || a.Deny? || a.Drain? || a.Send? || a.Append? {
      EventStepKeepsWakeUp(s, a);
    } else {
      ReplayKeepsWakeUp(s, a);
    }
  }

  lemma {:induction false} RunKeepsWakeUp(s: State, actions: seq<Action>)
    requires WakeUpKept(s) && CanRun(s, actions)
    ensures WakeUpKept(Run(s, actions))
    decreases |actions|
  {
    if actions != [] {
      StepKeepsWakeUp(s, actions[0]);
      RunKeepsWakeUp(Do(s, actions[0]), actions[1..]);
    }
  }

  /**
   For every placement of pushes, drains and flushes by other threads: while the background thread
   waits after a flush that ended on an empty drain, fifty or more buffered events imply that its
   wake-up flag is set. Once stop is set it begins at most one more flush.
   */
  lemma NoLostWakeUp(n: nat, actions: seq<Action>)
    requires n >= 1 && CanRun(Init(n), actions)
    ensures var s := Run(Init(n), actions);
            && |s.flushers| >= 1
            && (s.flushers[0].Waiting? && s.endedEmpty && |s.ring.Contents()| >= FLUSH_THRESHOLD ==> s.ring.flushNow)
            && (s.stop ==> s.flushesAfterStop <= 1)
  {
    RunKeepsWakeUp(Init(n), actions);
  }
}
