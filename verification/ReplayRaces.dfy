/**
 Which events the overflow loses or delivers twice, event by event and for every interleaving of
 writers and replayers: the schedules, and only those, that do it.

 `states` and `actions` are a run of `Pipeline` as a trace: state m, then action m, then state m + 1.
 */
module ReplayRaces {
  import opened Wrappers
  import opened AuditBuffer
  import opened Pipeline

  predicate Replays(s: State, f: nat, day: nat) {
    f < |s.flushers| && s.flushers[f].Replaying? && s.flushers[f].day == day
  }

  predicate Deletes(s: State, a: Action, day: nat) {
    a.Unlink? && a.ok && Replays(s, a.f, day)
  }

  /** A thread is about to write this event to a file of this day, which it has opened. */
  predicate HasOpen(s: State, f: nat, day: nat) {
    f < |s.flushers| && Writes(s.flushers[f]) && s.flushers[f].fd.Some? && s.flushers[f].fd.value.day == day
  }

  /** The file it has opened has been deleted. */
  predicate IsStale(s: State, f: nat, day: nat) {
    HasOpen(s, f, day) && s.flushers[f].fd.value.age != Epoch(s, day)
  }

  predicate WritesEvent(s: State, a: Action, x: nat, day: nat) {
    a.Append? && a.outcome == Written && HasOpen(s, a.f, day) && NextId(s.flushers[a.f]) == x
  }

  /** The event's line reaches the file of the day. */
  predicate Lands(s: State, a: Action, x: nat, day: nat) {
    WritesEvent(s, a, x, day) && !IsStale(s, a.f, day)
  }

  // -------------------------------------------------- what is on disk, or was

  lemma {:induction false} InFileMeans(disk: seq<Line>, day: nat, inside: bool, line: Line)
    ensures line in InFile(disk, day, inside) <==> line in disk && ((line.day == day) == inside)
  {
    if disk != [] {
      InFileMeans(disk[..|disk| - 1], day, inside, line);
    }
  }

  lemma {:induction false} AmongMeans(lines: seq<Line>, read: seq<nat>, known: bool, x: nat)
    ensures x in Among(lines, read, known) <==> (exists line :: line in lines && line.id == x) && ((x in read) == known)
  {
    if lines != [] {
      var front, last := lines[..|lines| - 1], lines[|lines| - 1];
      assert lines == front + [last];
      AmongMeans(front, read, known, x);
      if line :| line in lines && line.id == x {
        assert line in front || line == last;
      }
    }
  }

  /** How often event x is on disk or has left it through a deletion. */
  function Down(s: State, x: nat): nat {
    OnDisk(s.disk, x) + Count(s.ledger.settled, x) + Count(s.ledger.clobbered, x)
  }

  lemma UnlinkDown(s: State, day: nat, read: seq<nat>, x: nat)
    ensures Down(Delete(s, day, read), x) == Down(s, x)
  {
    FilesPartition(s.disk, day, x);
    var removed := InFile(s.disk, day, true);
    AmongPartition(removed, read, x);
    Pipeline.CountAppend(s.ledger.settled, Among(removed, read, true), x);
    Pipeline.CountAppend(s.ledger.clobbered, Among(removed, read, false), x);
  }

  lemma WriteDown(s: State, id: nat, fd: Fd, outcome: WriteOutcome, x: nat)
    ensures Down(Write(s, id, fd, outcome), x) >= Down(s, x)
  {
    OnDiskAppend(s.disk, Line(id, fd.day), x);
  }

  /** Only an append and a successful deletion touch the disk. */
  lemma DiskUntouched(s: State, a: Action)
    requires s.ring.Valid() && Enabled(s, a) && !(a.Unlink? && a.ok) && !a.Append?
    ensures var t := Do(s, a);
            && t.disk == s.disk && t.epochs == s.epochs && t.ledger.settled == s.ledger.settled
            && t.ledger.clobbered == s.ledger.clobbered && t.ledger.orphaned == s.ledger.orphaned
  {
    match a
    case Send(f, reply) =>
    case _ =>
  }

  lemma AppendEffect(s: State, f: nat, outcome: WriteOutcome)
    requires s.ring.Valid() && Enabled(s, Append(f, outcome))
    ensures var t, p := AppendBy(s, f, outcome), s.flushers[f];
            var day, x := p.fd.value.day, NextId(p);
            && t.disk == s.disk + (if Lands(s, Append(f, outcome), x, day) then [Line(x, day)] else [])
            && t.ledger.orphaned == s.ledger.orphaned + (if outcome == Written && IsStale(s, f, day) then [x] else [])
            && t.epochs == s.epochs && t.ledger.settled == s.ledger.settled && t.ledger.clobbered == s.ledger.clobbered
  {
    AppendMoves(s, f, outcome);
    assert s.disk + [] == s.disk && s.ledger.orphaned + [] == s.ledger.orphaned;
  }

  lemma StepDown(s: State, a: Action, x: nat)
    requires s.ring.Valid() && Enabled(s, a)
    ensures Down(Do(s, a), x) >= Down(s, x)
  {
    if a.Unlink? && a.ok {
      UnlinkDown(s, s.flushers[a.f].day, s.flushers[a.f].lines, x);
    } else if a.Append? {
      AppendMoves(s, a.f, a.outcome);
      WriteDown(s, NextId(s.flushers[a.f]), s.flushers[a.f].fd.value, a.outcome, x);
    } else {
      DiskUntouched(s, a);
    }
  }

  // ------------------------------------------------------- how a replay goes on

  /** One thread changed its phase, and not to a replay. */
  predicate OneLeaves(s: State, t: State, g: nat) {
    g < |s.flushers| == |t.flushers| && t.flushers == s.flushers[g := t.flushers[g]] && !t.flushers[g].Replaying?
  }

  lemma DrainLeaves(s: State, g: nat)
    requires s.ring.Valid() && Enabled(s, Drain(g))
    ensures OneLeaves(s, DrainBy(s, g), g)
  {
  }

  lemma SendLeaves(s: State, g: nat, reply: Reply)
    requires Enabled(s, Send(g, reply))
    ensures OneLeaves(s, SendBy(s, g, reply), g)
  {
  }

  lemma UnlinkLeaves(s: State, g: nat, ok: bool)
    requires Enabled(s, Unlink(g, ok))
    ensures OneLeaves(s, UnlinkBy(s, g, ok), g)
  {
  }

  lemma AppendLeaves(s: State, g: nat, outcome: WriteOutcome)
    requires Enabled(s, Append(g, outcome))
    ensures OneLeaves(s, AppendBy(s, g, outcome), g)
  {
    AppendMoves(s, g, outcome);
  }

  lemma EventStepsStartNoReplay(s: State, a: Action, f: nat)
    requires s.ring.Valid() && Enabled(s, a) && MovesEvents(a)
    requires f < |Do(s, a).flushers| && Do(s, a).flushers[f].Replaying?
    ensures f < |s.flushers| && Do(s, a).flushers[f] == s.flushers[f]
  {
    match a
    case Push =>
    case Deny(g) =>
    case Drain(g) => DrainLeaves(s, g);
    case Send(g, reply) => SendLeaves(s, g, reply);
    case Append(g, outcome) => AppendLeaves(s, g, outcome);
    case Unlink(g, ok) => UnlinkLeaves(s, g, ok);
  }

  lemma OtherStepsStartNoReplay(s: State, a: Action, f: nat)
    requires s.ring.Valid() && Enabled(s, a) && !a.ReadFile? && !a.SendChunk?
    requires f < |Do(s, a).flushers| && Do(s, a).flushers[f].Replaying?
    ensures f < |s.flushers| && Do(s, a).flushers[f] == s.flushers[f]
  {
    if MovesEvents(a) {
      EventStepsStartNoReplay(s, a, f);
    }
  }

  function ChunkEnd(p: Phase): nat
    requires p.Replaying? && p.sent <= |p.lines|
  {
    p.sent + MinNat(MAX_SEND_BATCH, |p.lines| - p.sent)
  }

  /** A replay under way keeps its file and what it has read; a new one has read all of its file. */
  lemma ReplayStep(s: State, a: Action, f: nat)
    requires s.ring.Valid() && Enabled(s, a) && f < |Do(s, a).flushers| && Do(s, a).flushers[f].Replaying?
    ensures f < |s.flushers|
    ensures var p, q := s.flushers[f], Do(s, a).flushers[f];
            if p.Replaying? then
              && q.day == p.day && q.lines == p.lines
              && (if a == SendChunk(f, true) then p.sent < |p.lines| && q.sent == ChunkEnd(p) else q.sent == p.sent)
            else a == ReadFile(f, true) && Do(s, a).disk == s.disk && q.lines == LineIds(InFile(s.disk, q.day, true)) && q.sent == 0
  {
    if !a.ReadFile? && !a.SendChunk? {
      OtherStepsStartNoReplay(s, a, f);
    }
  }

  // ---------------------------------------------- what every reachable state knows

  ghost predicate Distinct(ids: seq<nat>) {
    forall i, j :: 0 <= i < j < |ids| ==> ids[i] != ids[j]
  }

  ghost predicate ReplayKnown(s: State, p: Phase) {
    p.Replaying? ==>
      && p.sent <= |p.lines| && Distinct(p.lines)
      && (forall x :: x in p.lines ==> Down(s, x) >= 1)
      && (forall line :: line in s.disk && line.id in p.lines ==> line.day == p.day)
  }

  ghost predicate FdKnown(s: State, p: Phase) {
    (p.Spilling? || p.Denying?) && p.fd.Some? ==> p.fd.value.age <= Epoch(s, p.fd.value.day)
  }

  /** Conservation; what a replayer has read or sent was on disk, under its day; no file is older than its days. */
  ghost predicate Known(s: State) {
    && Conserved(s)
    && (forall f :: 0 <= f < |s.flushers| ==> ReplayKnown(s, s.flushers[f]) && FdKnown(s, s.flushers[f]))
    && (forall f: nat, g: nat, x: nat :: SameDay(s, f, g, x))
    && (forall x :: x in s.sent ==> Down(s, x) >= 1)
  }

  /** Two replayers that have read the same event replay the same day. */
  predicate SameDay(s: State, f: nat, g: nat, x: nat) {
    (&& f < |s.flushers| && g < |s.flushers| && s.flushers[f].Replaying? && s.flushers[g].Replaying?
     && x in s.flushers[f].lines && x in s.flushers[g].lines) ==> s.flushers[f].day == s.flushers[g].day
  }

  lemma {:induction false} OnDiskIn(disk: seq<Line>, n: nat, line: Line)
    requires n <= |disk| && line in disk[..n]
    ensures OnDiskTo(disk, n, line.id) >= 1
  {
    if disk[n - 1] != line {
      assert line in disk[..n - 1];
      OnDiskIn(disk, n - 1, line);
    }
  }

  lemma LineIsDown(s: State, line: Line)
    requires line in s.disk
    ensures OnDisk(s.disk, line.id) >= 1 && Down(s, line.id) >= 1
  {
    assert s.disk[..|s.disk|] == s.disk;
    OnDiskIn(s.disk, |s.disk|, line);
  }

  lemma {:induction false} TwoOnDisk(disk: seq<Line>, n: nat, i: nat, j: nat)
    requires i < j < n <= |disk| && disk[i].id == disk[j].id
    ensures OnDiskTo(disk, n, disk[i].id) >= 2
  {
    if j == n - 1 {
      assert disk[i] in disk[..n - 1];
      OnDiskIn(disk, n - 1, disk[i]);
    } else {
      TwoOnDisk(disk, n - 1, i, j);
    }
  }

  /** No event has two lines. */
  lemma LinesAreUnique(s: State, i: nat, j: nat)
    requires Conserved(s) && i < j < |s.disk|
    ensures s.disk[i].id != s.disk[j].id
  {
    assert Places(s, s.disk[i].id) <= 1;
    if s.disk[i].id == s.disk[j].id {
      TwoOnDisk(s.disk, |s.disk|, i, j);
    }
  }

  lemma DownIsAPlace(s: State, x: nat)
    requires Conserved(s)
    ensures Down(s, x) + Held(s.flushers, x) + Count(s.ledger.accepted, x) + Count(s.ledger.orphaned, x)
            <= if x < s.next then 1 else 0
  {
    assert Places(s, x) == if x < s.next then 1 else 0;
  }

  /** An event on its way to disk has not been there. */
  lemma InHandIsNotDown(s: State, f: nat)
    requires Conserved(s) && f < |s.flushers| && Writes(s.flushers[f])
    ensures Down(s, NextId(s.flushers[f])) == 0
  {
    var p := s.flushers[f];
    var x := NextId(p);
    DownIsAPlace(s, x);
    HeldByOne(s.flushers, f, |s.flushers|, x);
    assert x in HeldBy(p)[..|HeldBy(p)|];
    CountIn(HeldBy(p), |HeldBy(p)|, x);
  }

  lemma {:induction false} FileOfDistinct(disk: seq<Line>, day: nat, inside: bool)
    requires forall i, j :: 0 <= i < j < |disk| ==> disk[i].id != disk[j].id
    ensures Distinct(LineIds(InFile(disk, day, inside)))
  {
    if disk != [] {
      var front, last := disk[..|disk| - 1], disk[|disk| - 1];
      FileOfDistinct(front, day, inside);
      var file := InFile(front, day, inside);
      forall i | 0 <= i < |file| ensures file[i].id != last.id {
        InFileMeans(front, day, inside, file[i]);
      }
      var all := InFile(disk, day, inside);
      forall i, j | 0 <= i < j < |all| ensures LineIds(all)[i] != LineIds(all)[j] {
        assert i < |file| && all[i] == file[i];
        assert j < |file| ==> all[j] == file[j] && LineIds(file)[i] != LineIds(file)[j];
      }
    }
  }

  /** A freshly read file: distinct lines, all on disk, all of its day. */
  lemma FreshReplay(s: State, day: nat, days: seq<nat>)
    requires Conserved(s)
    ensures ReplayKnown(s, Replaying(day, days, LineIds(InFile(s.disk, day, true)), 0))
  {
    var file := InFile(s.disk, day, true);
    forall i, j | 0 <= i < j < |s.disk| ensures s.disk[i].id != s.disk[j].id {
      LinesAreUnique(s, i, j);
    }
    FileOfDistinct(s.disk, day, true);
    forall x | x in LineIds(file)
      ensures Line(x, day) in s.disk && Down(s, x) >= 1
    {
      var i :| 0 <= i < |file| && LineIds(file)[i] == x;
      InFileMeans(s.disk, day, true, file[i]);
      LineIsDown(s, file[i]);
    }
    forall line | line in s.disk && line.id in LineIds(file) ensures line.day == day {
      assert Line(line.id, day) in s.disk;
    }
  }

  lemma DiskStep(s: State, a: Action, line: Line)
    requires s.ring.Valid() && Enabled(s, a)
    ensures line in Do(s, a).disk <==> Lands(s, a, line.id, line.day) || (line in s.disk && !Deletes(s, a, line.day))
  {
    if a.Unlink? && a.ok {
      InFileMeans(s.disk, s.flushers[a.f].day, false, line);
    } else if a.Append? {
      AppendEffect(s, a.f, a.outcome);
    } else {
      DiskUntouched(s, a);
    }
  }

  lemma ReplayStaysKnown(s: State, a: Action, f: nat)
    requires Known(s) && Enabled(s, a) && Conserved(Do(s, a)) && f < |Do(s, a).flushers|
    ensures ReplayKnown(Do(s, a), Do(s, a).flushers[f])
  {
    var t := Do(s, a);
    var q := t.flushers[f];
    if q.Replaying? {
      ReplayStep(s, a, f);
      if !s.flushers[f].Replaying? {
        FreshReplay(t, q.day, q.days);
      } else {
        assert ReplayKnown(s, s.flushers[f]);
        forall x | x in q.lines ensures Down(t, x) >= 1 {
          StepDown(s, a, x);
        }
        forall line | line in t.disk && line.id in q.lines ensures line.day == q.day {
          DiskStep(s, a, line);
          if Lands(s, a, line.id, line.day) {
            InHandIsNotDown(s, a.f);
          }
        }
      }
    }
  }

  lemma EpochStep(s: State, a: Action, day: nat)
    requires s.ring.Valid() && Enabled(s, a)
    ensures Epoch(Do(s, a), day) == Epoch(s, day) + if Deletes(s, a, day) then 1 else 0
  {
    if a.Append? {
      AppendEffect(s, a.f, a.outcome);
    } else if !(a.Unlink? && a.ok) {
      DiskUntouched(s, a);
    }
  }

  predicate HoldsFd(p: Phase) { (p.Spilling? || p.Denying?) && p.fd.Some? }

  /** No thread has a file open in t that it had not in s. */
  predicate OpensNothing(s: State, t: State) {
    |t.flushers| == |s.flushers|
    && forall f :: 0 <= f < |s.flushers| && HoldsFd(t.flushers[f]) ==> t.flushers[f] == s.flushers[f]
  }

  lemma AppendOpensNothing(s: State, g: nat, outcome: WriteOutcome)
    requires Enabled(s, Append(g, outcome))
    ensures OpensNothing(s, AppendBy(s, g, outcome)) && !HoldsFd(AppendBy(s, g, outcome).flushers[g])
  {
    AppendMoves(s, g, outcome);
  }

  lemma SendOpensNothing(s: State, g: nat, reply: Reply)
    requires Enabled(s, Send(g, reply))
    ensures OpensNothing(s, SendBy(s, g, reply))
  {
  }

  lemma DrainOpensNothing(s: State, g: nat)
    requires s.ring.Valid() && Enabled(s, Drain(g))
    ensures OpensNothing(s, DrainBy(s, g))
  {
  }

  lemma UnlinkOpensNothing(s: State, g: nat, ok: bool)
    requires Enabled(s, Unlink(g, ok))
    ensures OpensNothing(s, UnlinkBy(s, g, ok))
  {
  }

  lemma LoopOpensNothing(s: State, a: Action)
    requires s.ring.Valid() && Enabled(s, a) && OfLoop(a)
    ensures OpensNothing(s, Do(s, a))
  {
  }

  lemma OthersOpenNothing(s: State, a: Action)
    requires s.ring.Valid() && Enabled(s, a) && !a.OpenFile?
    ensures OpensNothing(s, Do(s, a))
  {
    if OfLoop(a) {
      LoopOpensNothing(s, a);
    } else {
      match a
      case Append(g, outcome) => AppendOpensNothing(s, g, outcome);
      case Send(g, reply) => SendOpensNothing(s, g, reply);
      case Drain(g) => DrainOpensNothing(s, g);
      case Unlink(g, ok) => UnlinkOpensNothing(s, g, ok);
      case _ =>
    }
  }

  /** A file stays open until the line is written; it was opened at its age. */
  lemma FdStep(s: State, a: Action, f: nat)
    requires s.ring.Valid() && Enabled(s, a) && f < |Do(s, a).flushers| && HoldsFd(Do(s, a).flushers[f])
    ensures f < |s.flushers|
    ensures var p, q := s.flushers[f], Do(s, a).flushers[f];
            if HoldsFd(p) then q == p && a != OpenFile(f, q.fd.value.day)
            else a == OpenFile(f, q.fd.value.day) && q.fd.value.age == Epoch(s, q.fd.value.day) && Writes(q)
  {
    if !a.OpenFile? {
      OthersOpenNothing(s, a);
    }
  }

  lemma FdStaysKnown(s: State, a: Action, f: nat)
    requires Known(s) && Enabled(s, a) && f < |Do(s, a).flushers|
    ensures FdKnown(Do(s, a), Do(s, a).flushers[f])
  {
    var q := Do(s, a).flushers[f];
    if HoldsFd(q) {
      FdStep(s, a, f);
      EpochStep(s, a, q.fd.value.day);
      assert FdKnown(s, s.flushers[f]);
    }
  }

  // ------------------------------------------------------- what has been sent

  /** The chunk of a replay that this action gets accepted contains the event. */
  predicate Carries(s: State, a: Action, x: nat) {
    && a.SendChunk? && a.ok && a.f < |s.flushers| && s.flushers[a.f].Replaying?
    && s.flushers[a.f].sent < |s.flushers[a.f].lines|
    && x in s.flushers[a.f].lines[s.flushers[a.f].sent..ChunkEnd(s.flushers[a.f])]
  }

  lemma SentUntouched(s: State, a: Action)
    requires s.ring.Valid() && Enabled(s, a) && !(a.SendChunk? && a.ok)
    ensures Do(s, a).sent == s.sent
  {
    match a
    case Send(f, reply) =>
    case Append(f, outcome) => AppendMoves(s, f, outcome);
    case Unlink(f, ok) =>
    case _ =>
  }

  lemma SentStep(s: State, a: Action, x: nat)
    requires s.ring.Valid() && Enabled(s, a)
    ensures x in Do(s, a).sent <==> x in s.sent || Carries(s, a, x)
  {
    if !(a.SendChunk? && a.ok) {
      SentUntouched(s, a);
    }
  }

  /** Of a replay after a step: what it read before, or what is now on disk under its day. */
  lemma ReadOrOnDisk(s: State, a: Action, f: nat, x: nat)
    requires s.ring.Valid() && Enabled(s, a) && f < |Do(s, a).flushers| && Do(s, a).flushers[f].Replaying?
    requires x in Do(s, a).flushers[f].lines
    ensures var q := Do(s, a).flushers[f];
            || (f < |s.flushers| && s.flushers[f].Replaying? && x in s.flushers[f].lines && s.flushers[f].day == q.day)
            || (Do(s, a).disk == s.disk && Line(x, q.day) in s.disk && a == ReadFile(f, true))
  {
    ReplayStep(s, a, f);
    if !s.flushers[f].Replaying? {
      FreshLineIsOnDisk(s, Do(s, a).flushers[f].day, x);
    }
  }

  lemma FreshLineIsOnDisk(s: State, day: nat, x: nat)
    requires x in LineIds(InFile(s.disk, day, true))
    ensures Line(x, day) in s.disk
  {
    var file := InFile(s.disk, day, true);
    var i :| 0 <= i < |file| && LineIds(file)[i] == x;
    InFileMeans(s.disk, day, true, file[i]);
  }

  lemma SameDayStays(s: State, a: Action, f: nat, g: nat, x: nat)
    requires Known(s) && Enabled(s, a)
    ensures SameDay(Do(s, a), f, g, x)
  {
    var t := Do(s, a);
    if f < |t.flushers| && g < |t.flushers| && t.flushers[f].Replaying? && t.flushers[g].Replaying?
       && x in t.flushers[f].lines && x in t.flushers[g].lines {
      ReadOrOnDisk(s, a, f, x);
      ReadOrOnDisk(s, a, g, x);
      assert SameDay(s, f, g, x) && ReplayKnown(s, s.flushers[f]) && ReplayKnown(s, s.flushers[g]);
    }
  }

  lemma StepKeepsKnown(s: State, a: Action)
    requires Known(s) && Enabled(s, a)
    ensures Known(Do(s, a))
  {
    StepKeepsConserved(s, a);
    var t := Do(s, a);
    forall f | 0 <= f < |t.flushers| ensures ReplayKnown(t, t.flushers[f]) && FdKnown(t, t.flushers[f]) {
      ReplayStaysKnown(s, a, f);
      FdStaysKnown(s, a, f);
    }
    forall f: nat, g: nat, x: nat ensures SameDay(t, f, g, x) {
      SameDayStays(s, a, f, g, x);
    }
    forall x | x in t.sent ensures Down(t, x) >= 1 {
      SentStep(s, a, x);
      StepDown(s, a, x);
      if Carries(s, a, x) {
        assert ReplayKnown(s, s.flushers[a.f]);
      }
    }
  }

  lemma {:induction false} TraceKnown(n: nat, actions: seq<Action>, k: nat)
    requires n >= 1 && CanRun(Init(n), actions) && k <= |actions|
    ensures Known(Trace(Init(n), actions)[k])
  {
    if k == 0 {
      InitConserved(n);
      TraceEnds(Init(n), actions);
    } else {
      TraceKnown(n, actions, k - 1);
      TraceStep(Init(n), actions, k - 1);
      StepKeepsKnown(Trace(Init(n), actions)[k - 1], actions[k - 1]);
    }
  }

  /** No event is both delivered directly and replayed, and none that went to a deleted file was ever sent. */
  lemma DirectOrReplayed(n: nat, actions: seq<Action>, x: nat)
    requires n >= 1 && CanRun(Init(n), actions)
    ensures var s := Run(Init(n), actions);
            && (x in s.ledger.accepted ==> x !in s.sent)
            && (x in s.ledger.orphaned ==> x !in s.sent)
  {
    TraceKnown(n, actions, |actions|);
    TraceEnds(Init(n), actions);
    var s := Run(Init(n), actions);
    DownIsAPlace(s, x);
    InIsCounted(s.ledger.accepted, x);
    InIsCounted(s.ledger.orphaned, x);
  }

  lemma InIsCounted(ids: seq<nat>, x: nat)
    ensures x in ids ==> Count(ids, x) >= 1
  {
    if x in ids {
      assert ids[..|ids|] == ids;
      CountIn(ids, |ids|, x);
    }
  }

  // ------------------------------------------------ deleted without being read

  /** The file under replay holds the event's line, and the replayer has not read it. */
  ghost predicate UnreadLine(s: State, f: nat, day: nat, x: nat) {
    Replays(s, f, day) && Line(x, day) in s.disk && x !in s.flushers[f].lines
  }

  lemma ReadFileReadsAll(s: State, day: nat, x: nat)
    requires Line(x, day) in s.disk
    ensures x in LineIds(InFile(s.disk, day, true))
  {
    InFileMeans(s.disk, day, true, Line(x, day));
    var file := InFile(s.disk, day, true);
    var i :| 0 <= i < |file| && file[i] == Line(x, day);
    assert LineIds(file)[i] == x;
  }

  /** How one action changes whether an event's line is unread. */
  lemma UnreadStep(s: State, a: Action, f: nat, day: nat, x: nat)
    requires Known(s) && Enabled(s, a) && Replays(Do(s, a), f, day)
    ensures UnreadLine(Do(s, a), f, day, x)
            <==> Replays(s, f, day) && (Lands(s, a, x, day) || (!Deletes(s, a, day) && UnreadLine(s, f, day, x)))
  {
    ReplayStep(s, a, f);
    DiskStep(s, a, Line(x, day));
    if !s.flushers[f].Replaying? {
      if Line(x, day) in s.disk {
        ReadFileReadsAll(s, day, x);
      }
    } else if Lands(s, a, x, day) {
      InHandIsNotDown(s, a.f);
      assert ReplayKnown(s, s.flushers[f]);
    }
  }

  /**
   Action j writes the event's line to the file of a day that thread f is replaying; f is still in that
   replay before action k, and nobody has deleted the file in between.
   */
  ghost predicate WrittenLate(states: seq<State>, actions: seq<Action>, j: nat, k: nat, f: nat, day: nat, x: nat)
    requires |states| == |actions| + 1
  {
    && j < k <= |actions| && Lands(states[j], actions[j], x, day)
    && (forall m :: j <= m <= k ==> Replays(states[m], f, day))
    && (forall m :: j < m < k ==> !Deletes(states[m], actions[m], day))
  }

  ghost predicate WrittenDuring(states: seq<State>, actions: seq<Action>, k: nat, f: nat, day: nat, x: nat)
    requires |states| == |actions| + 1
  {
    exists j: nat :: WrittenLate(states, actions, j, k, f, day, x)
  }

  /** The last action of a replay's history decides. */
  lemma LateStep(states: seq<State>, actions: seq<Action>, k: nat, f: nat, day: nat, x: nat)
    requires |states| == |actions| + 1 && k < |actions|
    requires Replays(states[k + 1], f, day)
    ensures WrittenDuring(states, actions, k + 1, f, day, x)
            <==> Replays(states[k], f, day)
                 && (Lands(states[k], actions[k], x, day)
                     || (!Deletes(states[k], actions[k], day) && WrittenDuring(states, actions, k, f, day, x)))
  {
    if WrittenDuring(states, actions, k + 1, f, day, x) {
      var j: nat :| WrittenLate(states, actions, j, k + 1, f, day, x);
      assert Replays(states[k], f, day);
      if j < k {
        assert WrittenLate(states, actions, j, k, f, day, x);
      }
    }
    if Replays(states[k], f, day) {
      if Lands(states[k], actions[k], x, day) {
        assert WrittenLate(states, actions, k, k + 1, f, day, x);
      } else if !Deletes(states[k], actions[k], day) && WrittenDuring(states, actions, k, f, day, x) {
        var j: nat :| WrittenLate(states, actions, j, k, f, day, x);
        assert WrittenLate(states, actions, j, k + 1, f, day, x);
      }
    }
  }

  /** A line is unread exactly when it was written during the replay and the file not deleted since. */
  lemma {:induction false} UnreadExactlyWhen(n: nat, actions: seq<Action>, k: nat, f: nat, day: nat, x: nat)
    requires n >= 1 && CanRun(Init(n), actions) && k <= |actions| && Replays(Trace(Init(n), actions)[k], f, day)
    ensures var states := Trace(Init(n), actions);
            UnreadLine(states[k], f, day, x) <==> WrittenDuring(states, actions, k, f, day, x)
  {
    var states := Trace(Init(n), actions);
    TraceEnds(Init(n), actions);
    if k > 0 {
      TraceKnown(n, actions, k - 1);
      TraceStep(Init(n), actions, k - 1);
      UnreadStep(states[k - 1], actions[k - 1], f, day, x);
      LateStep(states, actions, k - 1, f, day, x);
      if Replays(states[k - 1], f, day) {
        UnreadExactlyWhen(n, actions, k - 1, f, day, x);
      }
    }
  }

  /** Action m ends a replay by deleting the file to which the event was written behind the replayer's back. */
  ghost predicate DeletedUnread(states: seq<State>, actions: seq<Action>, m: nat, x: nat)
    requires |states| == |actions| + 1
  {
    m < |actions| && actions[m].Unlink? && actions[m].ok
    && exists day: nat :: WrittenDuring(states, actions, m, actions[m].f, day, x)
  }

  lemma ClobberedStep(s: State, a: Action, x: nat)
    requires s.ring.Valid() && Enabled(s, a)
    ensures x in Do(s, a).ledger.clobbered
            <==> x in s.ledger.clobbered || (a.Unlink? && a.ok && exists day: nat :: UnreadLine(s, a.f, day, x))
  {
    if a.Unlink? && a.ok {
      var p := s.flushers[a.f];
      assert (exists day: nat :: UnreadLine(s, a.f, day, x)) <==> UnreadLine(s, a.f, p.day, x);
      AmongMeans(InFile(s.disk, p.day, true), p.lines, false, x);
      InFileMeans(s.disk, p.day, true, Line(x, p.day));
      if line :| line in InFile(s.disk, p.day, true) && line.id == x {
        InFileMeans(s.disk, p.day, true, line);
        assert line == Line(x, p.day);
      }
    } else if a.Append? {
      AppendEffect(s, a.f, a.outcome);
    } else {
      DiskUntouched(s, a);
    }
  }

  lemma DeletedUnreadMeans(n: nat, actions: seq<Action>, m: nat, x: nat)
    requires n >= 1 && CanRun(Init(n), actions) && m < |actions|
    ensures var states := Trace(Init(n), actions);
            DeletedUnread(states, actions, m, x)
            <==> actions[m].Unlink? && actions[m].ok && exists day: nat :: UnreadLine(states[m], actions[m].f, day, x)
  {
    var states := Trace(Init(n), actions);
    if actions[m].Unlink? && actions[m].ok {
      var f := actions[m].f;
      forall day: nat | Replays(states[m], f, day)
        ensures UnreadLine(states[m], f, day, x) <==> WrittenDuring(states, actions, m, f, day, x)
      {
        UnreadExactlyWhen(n, actions, m, f, day, x);
      }
      if day: nat :| WrittenDuring(states, actions, m, f, day, x) {
        var j: nat :| WrittenLate(states, actions, j, m, f, day, x);
        assert Replays(states[m], f, day);
      }
    }
  }

  /** What holds after a run, if it starts false and some steps set it and none reset it. */
  lemma {:induction false} Accumulates(holds: nat -> bool, sets: nat -> bool, k: nat)
    requires !holds(0) && forall m: nat :: m < k ==> (holds(m + 1) <==> holds(m) || sets(m))
    ensures holds(k) <==> exists m: nat :: m < k && sets(m)
  {
    if k > 0 {
      Accumulates(holds, sets, k - 1);
      assert holds(k - 1 + 1) <==> holds(k - 1) || sets(k - 1);
      if m: nat :| m < k && sets(m) {
        assert m < k - 1 || m == k - 1;
      }
    }
  }

  lemma ClobberedTraceStep(n: nat, actions: seq<Action>, m: nat, x: nat)
    requires n >= 1 && CanRun(Init(n), actions) && m < |actions|
    ensures var states := Trace(Init(n), actions);
            x in states[m + 1].ledger.clobbered <==> x in states[m].ledger.clobbered || DeletedUnread(states, actions, m, x)
  {
    TraceStep(Init(n), actions, m);
    ClobberedStep(Trace(Init(n), actions)[m], actions[m], x);
    DeletedUnreadMeans(n, actions, m, x);
  }

  lemma ClobberedRecord(states: seq<State>, actions: seq<Action>, x: nat)
    requires |states| == |actions| + 1 && x !in states[0].ledger.clobbered
    requires forall m: nat :: m < |actions| ==>
               (x in states[m + 1].ledger.clobbered <==> x in states[m].ledger.clobbered || DeletedUnread(states, actions, m, x))
    ensures x in states[|actions|].ledger.clobbered <==> exists m: nat :: DeletedUnread(states, actions, m, x)
  {
    var holds := (m: nat) => m <= |actions| && x in states[m].ledger.clobbered;
    var early := (m: nat) => DeletedUnread(states, actions, m, x);
    Accumulates(holds, early, |actions|);
    assert forall m: nat :: early(m) <==> DeletedUnread(states, actions, m, x);
  }

  /**
   An event is deleted unread exactly when its own line was written to the file of a day while some
   thread was replaying that day, that replay ended by deleting the file, and nobody else deleted it
   in between.
   */
  lemma ClobberedExactlyWhen(n: nat, actions: seq<Action>, x: nat)
    requires n >= 1 && CanRun(Init(n), actions)
    ensures x in Run(Init(n), actions).ledger.clobbered
            <==> exists m: nat :: DeletedUnread(Trace(Init(n), actions), actions, m, x)
  {
    forall m: nat | m < |actions| {
      ClobberedTraceStep(n, actions, m, x);
    }
    TraceEnds(Init(n), actions);
    ClobberedRecord(Trace(Init(n), actions), actions, x);
  }

  // ------------------------------------------------ written to a deleted file

  /** Thread f has had a file of the day open since action j. */
  ghost predicate OpenSince(states: seq<State>, actions: seq<Action>, j: nat, k: nat, f: nat, day: nat)
    requires |states| == |actions| + 1
  {
    j < k <= |actions| && actions[j] == OpenFile(f, day) && forall m :: j < m <= k ==> HasOpen(states[m], f, day)
  }

  /** And in the meantime it was deleted. */
  ghost predicate DeletedSince(states: seq<State>, actions: seq<Action>, k: nat, f: nat, day: nat)
    requires |states| == |actions| + 1
  {
    exists j: nat, m: nat :: j < m < k && OpenSince(states, actions, j, k, f, day) && Deletes(states[m], actions[m], day)
  }

  ghost predicate OpenedBefore(states: seq<State>, actions: seq<Action>, k: nat, f: nat, day: nat)
    requires |states| == |actions| + 1
  {
    exists j: nat :: OpenSince(states, actions, j, k, f, day)
  }

  lemma WritesStays(s: State, a: Action, f: nat, day: nat)
    requires s.ring.Valid() && Enabled(s, a) && HasOpen(Do(s, a), f, day)
    ensures HasOpen(s, f, day) || a == OpenFile(f, day)
    ensures HasOpen(s, f, day) ==> Do(s, a).flushers[f] == s.flushers[f] && a != OpenFile(f, day)
  {
    FdStep(s, a, f);
  }

  lemma {:induction false} OpenWasOpened(n: nat, actions: seq<Action>, k: nat, f: nat, day: nat)
    requires n >= 1 && CanRun(Init(n), actions) && k <= |actions| && HasOpen(Trace(Init(n), actions)[k], f, day)
    ensures OpenedBefore(Trace(Init(n), actions), actions, k, f, day)
  {
    var states := Trace(Init(n), actions);
    TraceEnds(Init(n), actions);
    if k > 0 {
      TraceStep(Init(n), actions, k - 1);
      WritesStays(states[k - 1], actions[k - 1], f, day);
      if HasOpen(states[k - 1], f, day) {
        OpenWasOpened(n, actions, k - 1, f, day);
        var j: nat :| OpenSince(states, actions, j, k - 1, f, day);
        assert OpenSince(states, actions, j, k, f, day);
      } else {
        assert OpenSince(states, actions, k - 1, k, f, day);
      }
    }
  }

  lemma SinceStep(states: seq<State>, actions: seq<Action>, k: nat, f: nat, day: nat)
    requires |states| == |actions| + 1 && k < |actions| && HasOpen(states[k + 1], f, day)
    requires HasOpen(states[k], f, day) ==> OpenedBefore(states, actions, k, f, day)
    ensures DeletedSince(states, actions, k + 1, f, day)
            <==> HasOpen(states[k], f, day) && (Deletes(states[k], actions[k], day) || DeletedSince(states, actions, k, f, day))
  {
    if DeletedSince(states, actions, k + 1, f, day) {
      var j: nat, m: nat :| j < m < k + 1 && OpenSince(states, actions, j, k + 1, f, day) && Deletes(states[m], actions[m], day);
      assert HasOpen(states[k], f, day) && OpenSince(states, actions, j, k, f, day);
    }
    if HasOpen(states[k], f, day) {
      if Deletes(states[k], actions[k], day) {
        var j: nat :| OpenSince(states, actions, j, k, f, day);
        assert OpenSince(states, actions, j, k + 1, f, day);
      } else if DeletedSince(states, actions, k, f, day) {
        var j: nat, m: nat :| j < m < k && OpenSince(states, actions, j, k, f, day) && Deletes(states[m], actions[m], day);
        assert OpenSince(states, actions, j, k + 1, f, day);
      }
    }
  }

  lemma StaleStep(s: State, a: Action, f: nat, day: nat)
    requires Known(s) && Enabled(s, a) && HasOpen(Do(s, a), f, day)
    ensures IsStale(Do(s, a), f, day) <==> HasOpen(s, f, day) && (Deletes(s, a, day) || IsStale(s, f, day))
  {
    FdStep(s, a, f);
    EpochStep(s, a, day);
    assert FdKnown(s, s.flushers[f]);
  }

  /** An open file is a deleted one exactly when it was deleted after it was opened. */
  lemma {:induction false} StaleExactlyWhen(n: nat, actions: seq<Action>, k: nat, f: nat, day: nat)
    requires n >= 1 && CanRun(Init(n), actions) && k <= |actions| && HasOpen(Trace(Init(n), actions)[k], f, day)
    ensures var states := Trace(Init(n), actions);
            IsStale(states[k], f, day) <==> DeletedSince(states, actions, k, f, day)
  {
    var states := Trace(Init(n), actions);
    TraceEnds(Init(n), actions);
    if k > 0 {
      TraceKnown(n, actions, k - 1);
      TraceStep(Init(n), actions, k - 1);
      StaleStep(states[k - 1], actions[k - 1], f, day);
      if HasOpen(states[k - 1], f, day) {
        OpenWasOpened(n, actions, k - 1, f, day);
      }
      SinceStep(states, actions, k - 1, f, day);
      if HasOpen(states[k - 1], f, day) {
        StaleExactlyWhen(n, actions, k - 1, f, day);
      }
    }
  }

  /** Action m writes the event to a file that was deleted after the thread had opened it. */
  ghost predicate WrittenTooLate(states: seq<State>, actions: seq<Action>, m: nat, x: nat)
    requires |states| == |actions| + 1
  {
    m < |actions| && exists day: nat :: WritesEvent(states[m], actions[m], x, day) && DeletedSince(states, actions, m, actions[m].f, day)
  }

  lemma OrphanedStep(s: State, a: Action, x: nat)
    requires s.ring.Valid() && Enabled(s, a)
    ensures x in Do(s, a).ledger.orphaned
            <==> x in s.ledger.orphaned || exists day: nat :: WritesEvent(s, a, x, day) && IsStale(s, a.f, day)
  {
    if a.Append? {
      AppendEffect(s, a.f, a.outcome);
      var day := s.flushers[a.f].fd.value.day;
      assert WritesEvent(s, a, NextId(s.flushers[a.f]), day) <==> a.outcome == Written;
    } else if a.Unlink? && a.ok {
    } else {
      DiskUntouched(s, a);
    }
  }

  lemma WrittenTooLateMeans(n: nat, actions: seq<Action>, m: nat, x: nat)
    requires n >= 1 && CanRun(Init(n), actions) && m < |actions|
    ensures var states := Trace(Init(n), actions);
            WrittenTooLate(states, actions, m, x)
            <==> exists day: nat :: WritesEvent(states[m], actions[m], x, day) && IsStale(states[m], actions[m].f, day)
  {
    var states := Trace(Init(n), actions);
    forall day: nat | WritesEvent(states[m], actions[m], x, day)
      ensures IsStale(states[m], actions[m].f, day) <==> DeletedSince(states, actions, m, actions[m].f, day)
    {
      StaleExactlyWhen(n, actions, m, actions[m].f, day);
    }
  }

  lemma OrphanedTraceStep(n: nat, actions: seq<Action>, m: nat, x: nat)
    requires n >= 1 && CanRun(Init(n), actions) && m < |actions|
    ensures var states := Trace(Init(n), actions);
            x in states[m + 1].ledger.orphaned <==> x in states[m].ledger.orphaned || WrittenTooLate(states, actions, m, x)
  {
    TraceStep(Init(n), actions, m);
    OrphanedStep(Trace(Init(n), actions)[m], actions[m], x);
    WrittenTooLateMeans(n, actions, m, x);
  }

  lemma OrphanedRecord(states: seq<State>, actions: seq<Action>, x: nat)
    requires |states| == |actions| + 1 && x !in states[0].ledger.orphaned
    requires forall m: nat :: m < |actions| ==>
               (x in states[m + 1].ledger.orphaned <==> x in states[m].ledger.orphaned || WrittenTooLate(states, actions, m, x))
    ensures x in states[|actions|].ledger.orphaned <==> exists m: nat :: WrittenTooLate(states, actions, m, x)
  {
    var holds := (m: nat) => m <= |actions| && x in states[m].ledger.orphaned;
    var late := (m: nat) => WrittenTooLate(states, actions, m, x);
    Accumulates(holds, late, |actions|);
    assert forall m: nat :: late(m) <==> WrittenTooLate(states, actions, m, x);
  }

  lemma OrphanedExactlyWhen(n: nat, actions: seq<Action>, x: nat)
    requires n >= 1 && CanRun(Init(n), actions)
    ensures x in Run(Init(n), actions).ledger.orphaned
            <==> exists m: nat :: WrittenTooLate(Trace(Init(n), actions), actions, m, x)
  {
    forall m: nat | m < |actions| {
      OrphanedTraceStep(n, actions, m, x);
    }
    TraceEnds(Init(n), actions);
    OrphanedRecord(Trace(Init(n), actions), actions, x);
  }

  // ----------------------------------------------------------------- lost events

  ghost predicate SentBy(states: seq<State>, actions: seq<Action>, m: nat, x: nat)
    requires |states| == |actions| + 1
  {
    m < |actions| && Carries(states[m], actions[m], x)
  }

  lemma SentTraceStep(n: nat, actions: seq<Action>, m: nat, x: nat)
    requires n >= 1 && CanRun(Init(n), actions) && m < |actions|
    ensures var states := Trace(Init(n), actions);
            x in states[m + 1].sent <==> x in states[m].sent || SentBy(states, actions, m, x)
  {
    TraceStep(Init(n), actions, m);
    SentStep(Trace(Init(n), actions)[m], actions[m], x);
  }

  lemma SentRecord(states: seq<State>, actions: seq<Action>, x: nat)
    requires |states| == |actions| + 1 && x !in states[0].sent
    requires forall m: nat :: m < |actions| ==> (x in states[m + 1].sent <==> x in states[m].sent || SentBy(states, actions, m, x))
    ensures x in states[|actions|].sent <==> exists m: nat :: SentBy(states, actions, m, x)
  {
    var holds := (m: nat) => m <= |actions| && x in states[m].sent;
    var sends := (m: nat) => SentBy(states, actions, m, x);
    Accumulates(holds, sends, |actions|);
    assert forall m: nat :: sends(m) <==> SentBy(states, actions, m, x);
  }

  lemma SentExactlyWhen(n: nat, actions: seq<Action>, x: nat)
    requires n >= 1 && CanRun(Init(n), actions)
    ensures x in Run(Init(n), actions).sent <==> exists m: nat :: SentBy(Trace(Init(n), actions), actions, m, x)
  {
    forall m: nat | m < |actions| {
      SentTraceStep(n, actions, m, x);
    }
    TraceEnds(Init(n), actions);
    SentRecord(Trace(Init(n), actions), actions, x);
  }

  /** The event's line was written, is gone from disk, and no replay got it accepted. */
  predicate Lost(s: State, x: nat) {
    (x in s.ledger.clobbered || x in s.ledger.orphaned) && x !in s.sent
  }

  /**
   The exact condition for a lost event, on the schedule. Either its line was written to a file during
   a replay of that file which then deleted it, nobody else having deleted it in between, and no
   replay ever got it accepted; or it was written to a file that had been deleted after the writer had
   opened it.
   */
  lemma LostExactlyWhen(n: nat, actions: seq<Action>, x: nat)
    requires n >= 1 && CanRun(Init(n), actions)
    ensures var states := Trace(Init(n), actions);
            Lost(Run(Init(n), actions), x) <==>
              || ((exists m: nat :: DeletedUnread(states, actions, m, x)) && !(exists m: nat :: SentBy(states, actions, m, x)))
              || (exists m: nat :: WrittenTooLate(states, actions, m, x))
  {
    ClobberedExactlyWhen(n, actions, x);
    OrphanedExactlyWhen(n, actions, x);
    SentExactlyWhen(n, actions, x);
    DirectOrReplayed(n, actions, x);
  }

  /**
   From opening to writing, no write to the file of a day overlaps a replay of that day: nobody opens
   the file, or writes to it, while it is replayed. Other days do not matter.
   */
  ghost predicate Serialised(states: seq<State>, actions: seq<Action>)
    requires |states| == |actions| + 1
  {
    forall k: nat, f: nat, g: nat, day: nat :: k <= |actions| && HasOpen(states[k], g, day) ==> !Replays(states[k], f, day)
  }

  /** Under that assumption no event is ever lost to a replay, however many threads flush at once. */
  lemma SerialisedReplayLosesNothing(n: nat, actions: seq<Action>, x: nat)
    requires n >= 1 && CanRun(Init(n), actions) && Serialised(Trace(Init(n), actions), actions)
    ensures !Lost(Run(Init(n), actions), x)
  {
    LostExactlyWhen(n, actions, x);
    var states := Trace(Init(n), actions);
    forall m: nat ensures !DeletedUnread(states, actions, m, x) && !WrittenTooLate(states, actions, m, x) {
      NothingLate(states, actions, m, x);
    }
  }

  lemma NothingLate(states: seq<State>, actions: seq<Action>, m: nat, x: nat)
    requires |states| == |actions| + 1 && Serialised(states, actions)
    ensures !DeletedUnread(states, actions, m, x) && !WrittenTooLate(states, actions, m, x)
  {
    forall j: nat, f: nat, day: nat ensures !WrittenLate(states, actions, j, m, f, day, x) {
      assert j < m <= |actions| && Lands(states[j], actions[j], x, day) ==> HasOpen(states[j], actions[j].f, day);
    }
    forall j: nat, k: nat, f: nat, day: nat
      ensures !(j < k < m && OpenSince(states, actions, j, m, f, day) && Deletes(states[k], actions[k], day))
    {
      assert OpenSince(states, actions, j, m, f, day) && j < k < m ==> HasOpen(states[k], f, day);
    }
  }

  // --------------------------------------------- events accepted more than once

  /** How often the event has been accepted in the first k actions. */
  ghost function TimesSent(states: seq<State>, actions: seq<Action>, k: nat, x: nat): nat
    requires |states| == |actions| + 1 && k <= |actions|
  {
    if k == 0 then 0 else TimesSent(states, actions, k - 1, x) + if SentBy(states, actions, k - 1, x) then 1 else 0
  }

  lemma {:induction false} CountDistinct(ids: seq<nat>, n: nat, x: nat)
    requires Distinct(ids) && n <= |ids|
    ensures CountTo(ids, n, x) == if x in ids[..n] then 1 else 0
  {
    if n > 0 {
      CountDistinct(ids, n - 1, x);
      assert ids[..n] == ids[..n - 1] + [ids[n - 1]];
    }
  }

  lemma ChunkCounts(s: State, a: Action, x: nat)
    requires Known(s) && Enabled(s, a)
    ensures Count(Do(s, a).sent, x) == Count(s.sent, x) + if Carries(s, a, x) then 1 else 0
  {
    if a.SendChunk? && a.ok {
      var p := s.flushers[a.f];
      assert ReplayKnown(s, p);
      var chunk := p.lines[p.sent..ChunkEnd(p)];
      Pipeline.CountAppend(s.sent, chunk, x);
      assert chunk[..|chunk|] == chunk;
      CountDistinct(chunk, |chunk|, x);
    } else {
      SentUntouched(s, a);
    }
  }

  lemma {:induction false} SentIsCounted(n: nat, actions: seq<Action>, k: nat, x: nat)
    requires n >= 1 && CanRun(Init(n), actions) && k <= |actions|
    ensures var states := Trace(Init(n), actions);
            Count(states[k].sent, x) == TimesSent(states, actions, k, x)
  {
    TraceEnds(Init(n), actions);
    if k > 0 {
      SentIsCounted(n, actions, k - 1, x);
      TraceKnown(n, actions, k - 1);
      TraceStep(Init(n), actions, k - 1);
      ChunkCounts(Trace(Init(n), actions)[k - 1], actions[k - 1], x);
    }
  }

  lemma {:induction false} SentOnce(states: seq<State>, actions: seq<Action>, k: nat, x: nat)
    requires |states| == |actions| + 1 && k <= |actions|
    ensures TimesSent(states, actions, k, x) >= 1 <==> exists i: nat :: i < k && SentBy(states, actions, i, x)
  {
    if k > 0 {
      SentOnce(states, actions, k - 1, x);
      if i: nat :| i < k && SentBy(states, actions, i, x) {
        assert i < k - 1 || i == k - 1;
      }
    }
  }

  ghost predicate TwoSends(states: seq<State>, actions: seq<Action>, i: nat, k: nat, x: nat)
    requires |states| == |actions| + 1
  {
    i < k && SentBy(states, actions, i, x) && SentBy(states, actions, k, x)
  }

  ghost predicate SentTwiceBy(states: seq<State>, actions: seq<Action>, k: nat, x: nat)
    requires |states| == |actions| + 1
  {
    exists i: nat, m: nat :: m < k && TwoSends(states, actions, i, m, x)
  }

  lemma SentTwiceStep(states: seq<State>, actions: seq<Action>, k: nat, x: nat)
    requires |states| == |actions| + 1
    ensures SentTwiceBy(states, actions, k + 1, x)
            <==> SentTwiceBy(states, actions, k, x) || exists i: nat :: TwoSends(states, actions, i, k, x)
  {
    if SentTwiceBy(states, actions, k + 1, x) {
      var i: nat, m: nat :| m < k + 1 && TwoSends(states, actions, i, m, x);
      assert m < k || m == k;
    }
  }

  lemma {:induction false} SentTwice(states: seq<State>, actions: seq<Action>, k: nat, x: nat)
    requires |states| == |actions| + 1 && k <= |actions|
    ensures TimesSent(states, actions, k, x) >= 2 <==> SentTwiceBy(states, actions, k, x)
  {
    if k > 0 {
      SentTwice(states, actions, k - 1, x);
      SentOnce(states, actions, k - 1, x);
      SentTwiceStep(states, actions, k - 1, x);
      if SentBy(states, actions, k - 1, x) {
        if i: nat :| i < k - 1 && SentBy(states, actions, i, x) {
          assert TwoSends(states, actions, i, k - 1, x);
        }
      }
    }
  }

  // How an event that was accepted can come into the hands of a replayer once more.

  /** The thread has been replaying the day all the time. */
  ghost predicate Under(states: seq<State>, g: nat, day: nat, i: nat, k: nat) {
    forall m :: i <= m <= k && m < |states| ==> Replays(states[m], g, day)
  }

  /** The thread read the file after action i, nobody having deleted it since, and has been replaying it. */
  ghost predicate ReadAgain(states: seq<State>, actions: seq<Action>, g: nat, day: nat, i: nat, r: nat, k: nat)
    requires |states| == |actions| + 1
  {
    && i < r < k <= |actions| && actions[r] == ReadFile(g, true)
    && (forall m :: r < m <= k ==> Replays(states[m], g, day))
    && (forall m :: i <= m < r ==> !Deletes(states[m], actions[m], day))
  }

  ghost predicate ReadSince(states: seq<State>, actions: seq<Action>, g: nat, day: nat, i: nat, k: nat)
    requires |states| == |actions| + 1
  {
    exists r: nat :: ReadAgain(states, actions, g, day, i, r, k)
  }

  lemma {:induction false} StaysDown(n: nat, actions: seq<Action>, i: nat, k: nat, x: nat)
    requires n >= 1 && CanRun(Init(n), actions) && i <= k <= |actions|
    ensures Down(Trace(Init(n), actions)[k], x) >= Down(Trace(Init(n), actions)[i], x)
    decreases k
  {
    if i < k {
      StaysDown(n, actions, i, k - 1, x);
      TraceStep(Init(n), actions, k - 1);
      StepDown(Trace(Init(n), actions)[k - 1], actions[k - 1], x);
    }
  }

  lemma WasOnDisk(s: State, a: Action, x: nat, day: nat)
    requires Known(s) && Enabled(s, a) && Down(s, x) >= 1 && Line(x, day) in Do(s, a).disk
    ensures Line(x, day) in s.disk && !Deletes(s, a, day)
  {
    DiskStep(s, a, Line(x, day));
    if Lands(s, a, x, day) {
      InHandIsNotDown(s, a.f);
    }
  }

  /** A line that was on disk once and is on disk now has been there all the time. */
  lemma {:induction false} StaysOnDisk(n: nat, actions: seq<Action>, i: nat, k: nat, x: nat, day: nat)
    requires n >= 1 && CanRun(Init(n), actions) && i <= k <= |actions|
    requires Down(Trace(Init(n), actions)[i], x) >= 1 && Line(x, day) in Trace(Init(n), actions)[k].disk
    ensures var states := Trace(Init(n), actions);
            && Line(x, day) in states[i].disk
            && forall m :: i <= m < k ==> !Deletes(states[m], actions[m], day)
    decreases k
  {
    if i < k {
      var states := Trace(Init(n), actions);
      TraceKnown(n, actions, k - 1);
      TraceStep(Init(n), actions, k - 1);
      StaysDown(n, actions, i, k - 1, x);
      WasOnDisk(states[k - 1], actions[k - 1], x, day);
      StaysOnDisk(n, actions, i, k - 1, x, day);
    }
  }

  lemma AnotherState(states: seq<State>, actions: seq<Action>, g: nat, day: nat, i: nat, k: nat)
    requires |states| == |actions| + 1 && i < k <= |actions| && Replays(states[k], g, day)
    requires Under(states, g, day, i, k - 1) || ReadSince(states, actions, g, day, i, k - 1)
    ensures Under(states, g, day, i, k) || ReadSince(states, actions, g, day, i, k)
  {
    if ReadSince(states, actions, g, day, i, k - 1) {
      var r: nat :| ReadAgain(states, actions, g, day, i, r, k - 1);
      assert ReadAgain(states, actions, g, day, i, r, k);
    }
  }

  lemma SecondReading(n: nat, actions: seq<Action>, i: nat, k: nat, g: nat, day: nat, x: nat)
    requires n >= 1 && CanRun(Init(n), actions) && i < k <= |actions| && SentBy(Trace(Init(n), actions), actions, i, x)
    requires Replays(Trace(Init(n), actions)[k], g, day) && x in Trace(Init(n), actions)[k].flushers[g].lines
    requires g < |Trace(Init(n), actions)[k - 1].flushers| && !Trace(Init(n), actions)[k - 1].flushers[g].Replaying?
    ensures ReadSince(Trace(Init(n), actions), actions, g, day, i, k)
  {
    var states := Trace(Init(n), actions);
    TraceStep(Init(n), actions, k - 1);
    ReplayStep(states[k - 1], actions[k - 1], g);
    FreshLineIsOnDisk(states[k - 1], day, x);
    TraceKnown(n, actions, i);
    assert ReplayKnown(states[i], states[i].flushers[actions[i].f]);
    StaysOnDisk(n, actions, i, k - 1, x, day);
    assert ReadAgain(states, actions, g, day, i, k - 1, k);
  }

  /** Whoever replays the event after action i accepted it was already at it, or has read the file since. */
  lemma {:induction false} SecondChance(n: nat, actions: seq<Action>, i: nat, k: nat, g: nat, day: nat, x: nat)
    requires n >= 1 && CanRun(Init(n), actions) && i <= k <= |actions| && SentBy(Trace(Init(n), actions), actions, i, x)
    requires Replays(Trace(Init(n), actions)[k], g, day) && x in Trace(Init(n), actions)[k].flushers[g].lines
    ensures var states := Trace(Init(n), actions);
            Under(states, g, day, i, k) || ReadSince(states, actions, g, day, i, k)
    decreases k
  {
    var states := Trace(Init(n), actions);
    if i < k {
      TraceStep(Init(n), actions, k - 1);
      ReplayStep(states[k - 1], actions[k - 1], g);
      if states[k - 1].flushers[g].Replaying? {
        SecondChance(n, actions, i, k - 1, g, day, x);
        AnotherState(states, actions, g, day, i, k);
      } else {
        SecondReading(n, actions, i, k, g, day, x);
      }
    }
  }

  /** The event is still to be sent by this replay. */
  ghost predicate Unsent(s: State, f: nat, x: nat) {
    f < |s.flushers| && s.flushers[f].Replaying? && s.flushers[f].sent <= |s.flushers[f].lines|
    && x in s.flushers[f].lines[s.flushers[f].sent..]
  }

  lemma SentIsNotUnsent(s: State, a: Action, x: nat)
    requires Known(s) && Enabled(s, a) && Carries(s, a, x)
    ensures Unsent(s, a.f, x) && !Unsent(Do(s, a), a.f, x)
  {
    var p := s.flushers[a.f];
    assert ReplayKnown(s, p);
    var i :| p.sent <= i < ChunkEnd(p) && p.lines[i] == x;
    assert p.lines[p.sent..][i - p.sent] == x;
    var q := Do(s, a).flushers[a.f];
    assert q.Replaying? && q.lines == p.lines && q.sent == ChunkEnd(p);
    forall j | ChunkEnd(p) <= j < |p.lines| ensures p.lines[j] != x {
      assert p.lines[i] != p.lines[j];
    }
  }

  lemma SentStays(s: State, a: Action, f: nat, x: nat)
    requires s.ring.Valid() && Enabled(s, a) && f < |s.flushers| && f < |Do(s, a).flushers| && !Unsent(s, f, x)
    requires s.flushers[f].Replaying? && Do(s, a).flushers[f].Replaying?
    ensures !Unsent(Do(s, a), f, x)
  {
    ReplayStep(s, a, f);
    StillSent(s.flushers[f], Do(s, a).flushers[f], x);
  }

  /** In one replay no event is sent twice. */
  lemma {:induction false} SentOnceInAReplay(n: nat, actions: seq<Action>, i: nat, k: nat, day: nat, x: nat)
    requires n >= 1 && CanRun(Init(n), actions) && i < k <= |actions| && SentBy(Trace(Init(n), actions), actions, i, x)
    requires Under(Trace(Init(n), actions), actions[i].f, day, i, k)
    ensures !Unsent(Trace(Init(n), actions)[k], actions[i].f, x)
    decreases k
  {
    var states := Trace(Init(n), actions);
    var f := actions[i].f;
    TraceStep(Init(n), actions, k - 1);
    TraceKnown(n, actions, k - 1);
    if i == k - 1 {
      SentIsNotUnsent(states[i], actions[i], x);
    } else {
      SentOnceInAReplay(n, actions, i, k - 1, day, x);
      assert Replays(states[k], f, day) && Replays(states[k - 1], f, day);
      SentStays(states[k - 1], actions[k - 1], f, x);
    }
  }

  lemma StillSent(p: Phase, q: Phase, x: nat)
    requires p.Replaying? && q.Replaying? && q.lines == p.lines && p.sent <= q.sent
    requires p.sent <= |p.lines| ==> x !in p.lines[p.sent..]
    ensures q.sent <= |q.lines| ==> x !in q.lines[q.sent..]
  {
    if q.sent <= |q.lines| {
      assert q.lines[q.sent..] == p.lines[p.sent..][q.sent - p.sent..];
    }
  }

  /** Two replays were under way at once when the event was first accepted. */
  ghost predicate Overlapped(states: seq<State>, actions: seq<Action>, i: nat, k: nat)
    requires |states| == |actions| + 1 && i < k < |actions| && actions[i].SendChunk? && actions[k].SendChunk?
  {
    actions[i].f != actions[k].f && exists day: nat :: Under(states, actions[k].f, day, i, k)
  }

  /** The file outlived the first acceptance and was read again. */
  ghost predicate ReadOnceMore(states: seq<State>, actions: seq<Action>, i: nat, k: nat)
    requires |states| == |actions| + 1 && i < k < |actions| && actions[i].SendChunk? && actions[k].SendChunk?
  {
    exists day: nat :: ReadSince(states, actions, actions[k].f, day, i, k)
  }

  lemma SecondSend(n: nat, actions: seq<Action>, i: nat, k: nat, x: nat)
    requires n >= 1 && CanRun(Init(n), actions) && TwoSends(Trace(Init(n), actions), actions, i, k, x)
    ensures var states := Trace(Init(n), actions);
            Overlapped(states, actions, i, k) || ReadOnceMore(states, actions, i, k)
  {
    var states := Trace(Init(n), actions);
    var g := actions[k].f;
    var day := states[k].flushers[g].day;
    TraceStep(Init(n), actions, k);
    TraceKnown(n, actions, k);
    SentIsNotUnsent(states[k], actions[k], x);
    SecondChance(n, actions, i, k, g, day, x);
    if Under(states, g, day, i, k) && actions[i].f == g {
      SentOnceInAReplay(n, actions, i, k, day, x);
    }
  }

  ghost predicate SentAgain(states: seq<State>, actions: seq<Action>, i: nat, k: nat, x: nat)
    requires |states| == |actions| + 1
  {
    TwoSends(states, actions, i, k, x) && (Overlapped(states, actions, i, k) || ReadOnceMore(states, actions, i, k))
  }

  /**
   The server gets an event more than once exactly when two replays that send it overlap, or one sends
   it, the file is not deleted, and a later reading of the same file sends it again.
   */
  lemma SentMoreThanOnceExactlyWhen(n: nat, actions: seq<Action>, x: nat)
    requires n >= 1 && CanRun(Init(n), actions)
    ensures Count(Run(Init(n), actions).sent, x) >= 2
            <==> exists i: nat, k: nat :: SentAgain(Trace(Init(n), actions), actions, i, k, x)
  {
    var states := Trace(Init(n), actions);
    TraceEnds(Init(n), actions);
    SentIsCounted(n, actions, |actions|, x);
    SentTwice(states, actions, |actions|, x);
    forall i: nat, k: nat | TwoSends(states, actions, i, k, x) ensures SentAgain(states, actions, i, k, x) {
      SecondSend(n, actions, i, k, x);
    }
  }

  // ------------------------------------------------------- exactly once, and when

  /** No two threads replay the same day at once. */
  ghost predicate OneReplayer(states: seq<State>) {
    forall m, f, g, day :: 0 <= m < |states| && Replays(states[m], f, day) && Replays(states[m], g, day) ==> f == g
  }

  /** Every replay that ends, ends by deleting its file. */
  ghost predicate AlwaysDeletes(states: seq<State>, actions: seq<Action>)
    requires |states| == |actions| + 1
  {
    forall m: nat, f: nat, day: nat :: Ends(states, m, f, day) && m < |actions| ==> Deletes(states[m], actions[m], day)
  }

  predicate Ends(states: seq<State>, m: nat, f: nat, day: nat) {
    m + 1 < |states| && Replays(states[m], f, day) && !Replays(states[m + 1], f, day)
  }

  /** A replay that is not over by a deletion is not over. */
  lemma {:induction false} StillReplaying(states: seq<State>, actions: seq<Action>, f: nat, day: nat, i: nat, r: nat)
    requires |states| == |actions| + 1 && i <= r <= |actions| && AlwaysDeletes(states, actions)
    requires Replays(states[i], f, day) && forall m :: i <= m < r ==> !Deletes(states[m], actions[m], day)
    ensures Replays(states[r], f, day)
    decreases r
  {
    if i < r {
      StillReplaying(states, actions, f, day, i, r - 1);
      assert !Ends(states, r - 1, f, day);
    }
  }

  lemma DayOfEvent(n: nat, actions: seq<Action>, i: nat, x: nat, day: nat)
    requires n >= 1 && CanRun(Init(n), actions) && i < |actions| && SentBy(Trace(Init(n), actions), actions, i, x)
    requires Line(x, day) in Trace(Init(n), actions)[i].disk
    ensures Replays(Trace(Init(n), actions)[i], actions[i].f, day)
  {
    TraceKnown(n, actions, i);
    var s := Trace(Init(n), actions)[i];
    assert ReplayKnown(s, s.flushers[actions[i].f]);
  }

  /** A replay has the same lines from beginning to end. */
  lemma {:induction false} SameLines(n: nat, actions: seq<Action>, g: nat, day: nat, i: nat, k: nat)
    requires n >= 1 && CanRun(Init(n), actions) && i <= k <= |actions| && Under(Trace(Init(n), actions), g, day, i, k)
    ensures var states := Trace(Init(n), actions);
            && Replays(states[i], g, day) && Replays(states[k], g, day)
            && states[i].flushers[g].lines == states[k].flushers[g].lines
    decreases k
  {
    var states := Trace(Init(n), actions);
    assert Replays(states[k], g, day);
    if i < k {
      SameLines(n, actions, g, day, i, k - 1);
      TraceStep(Init(n), actions, k - 1);
      ReplayStep(states[k - 1], actions[k - 1], g);
    }
  }

  lemma OverlapBreaks(n: nat, actions: seq<Action>, i: nat, k: nat, x: nat)
    requires n >= 1 && CanRun(Init(n), actions) && TwoSends(Trace(Init(n), actions), actions, i, k, x)
    requires Overlapped(Trace(Init(n), actions), actions, i, k)
    ensures !OneReplayer(Trace(Init(n), actions))
  {
    var states := Trace(Init(n), actions);
    var f, g := actions[i].f, actions[k].f;
    var day: nat :| Under(states, g, day, i, k);
    SameLines(n, actions, g, day, i, k);
    TraceKnown(n, actions, i);
    var p := states[i].flushers[f];
    assert x in p.lines && x in states[i].flushers[g].lines;
    assert SameDay(states[i], f, g, x);
    assert Replays(states[i], f, day);
  }

  /** A file read after an event of it was accepted is the one that replay was about. */
  lemma ReadTheSameFile(n: nat, actions: seq<Action>, i: nat, r: nat, k: nat, g: nat, day: nat, x: nat)
    requires n >= 1 && CanRun(Init(n), actions) && TwoSends(Trace(Init(n), actions), actions, i, k, x)
    requires g == actions[k].f && ReadAgain(Trace(Init(n), actions), actions, g, day, i, r, k)
    ensures var states := Trace(Init(n), actions);
            && Replays(states[i], actions[i].f, day)
            && Replays(states[r + 1], g, day) && !Replays(states[r], g, day)
  {
    var states := Trace(Init(n), actions);
    SameLines(n, actions, g, day, r + 1, k);
    TraceStep(Init(n), actions, r);
    ReplayStep(states[r], actions[r], g);
    FreshLineIsOnDisk(states[r], day, x);
    TraceKnown(n, actions, i);
    assert ReplayKnown(states[i], states[i].flushers[actions[i].f]);
    StaysOnDisk(n, actions, i, r, x, day);
    DayOfEvent(n, actions, i, x, day);
  }

  lemma TwoReplayers(states: seq<State>, m: nat, f: nat, g: nat, day: nat)
    requires m < |states| && f != g && Replays(states[m], f, day) && Replays(states[m], g, day)
    ensures !OneReplayer(states)
  {
  }

  lemma ReadOnceMoreBreaks(n: nat, actions: seq<Action>, i: nat, k: nat, x: nat)
    requires n >= 1 && CanRun(Init(n), actions) && TwoSends(Trace(Init(n), actions), actions, i, k, x)
    requires ReadOnceMore(Trace(Init(n), actions), actions, i, k) && AlwaysDeletes(Trace(Init(n), actions), actions)
    ensures !OneReplayer(Trace(Init(n), actions))
  {
    var states := Trace(Init(n), actions);
    var f, g := actions[i].f, actions[k].f;
    var day: nat :| ReadSince(states, actions, g, day, i, k);
    var r: nat :| ReadAgain(states, actions, g, day, i, r, k);
    ReadTheSameFile(n, actions, i, r, k, g, day, x);
    StillReplaying(states, actions, f, day, i, r);
    StillReplaying(states, actions, f, day, i, r + 1);
    TwoReplayers(states, r + 1, f, g, day);
  }

  /** If nobody replays a day that another is replaying, and every replay deletes its file, nothing is accepted twice. */
  lemma SentAtMostOnce(n: nat, actions: seq<Action>, x: nat)
    requires n >= 1 && CanRun(Init(n), actions)
    requires OneReplayer(Trace(Init(n), actions)) && AlwaysDeletes(Trace(Init(n), actions), actions)
    ensures Count(Run(Init(n), actions).sent, x) <= 1
  {
    SentMoreThanOnceExactlyWhen(n, actions, x);
    var states := Trace(Init(n), actions);
    forall i: nat, k: nat | TwoSends(states, actions, i, k, x)
      ensures !Overlapped(states, actions, i, k) && !ReadOnceMore(states, actions, i, k)
    {
      NotTogether(n, actions, i, k, x);
    }
  }

  lemma NotTogether(n: nat, actions: seq<Action>, i: nat, k: nat, x: nat)
    requires n >= 1 && CanRun(Init(n), actions) && TwoSends(Trace(Init(n), actions), actions, i, k, x)
    requires AlwaysDeletes(Trace(Init(n), actions), actions)
    ensures var states := Trace(Init(n), actions);
            Overlapped(states, actions, i, k) || ReadOnceMore(states, actions, i, k) ==> !OneReplayer(states)
  {
    var states := Trace(Init(n), actions);
    if Overlapped(states, actions, i, k) {
      OverlapBreaks(n, actions, i, k, x);
    } else if ReadOnceMore(states, actions, i, k) {
      ReadOnceMoreBreaks(n, actions, i, k, x);
    }
  }
}
