/**
 Where the audit pipeline falls short of its promises. A background thread that waits although enough
 is buffered: which schedules, and only which, bring it there. And runs of the background thread and
 one other that show each gap: a missed wake-up, a lost event, an event delivered twice, a flush_all
 that returns too soon.
 */
module PipelineRaces {
  import opened Wrappers
  import opened AuditBuffer
  import opened Pipeline
  import opened ReplayRaces

  // ---------------------------------------------------------- a missed wake-up

  /** Of the actions that touch the wake-up flag the last one, if any, cleared it. */
  predicate ClearedLast(actions: seq<Action>) {
    actions == [] ||
    var a := actions[|actions| - 1];
    a.Clear? || (!a.Push? && !a.WakeUp? && ClearedLast(actions[..|actions| - 1]))
  }

  ghost predicate FlagFollows(s: State, cleared: bool) {
    s.ring.Valid() && (|s.ring.Contents()| >= FLUSH_THRESHOLD ==> (!s.ring.flushNow <==> cleared))
  }

  lemma FlagStep(s: State, a: Action, cleared: bool)
    requires FlagFollows(s, cleared) && Enabled(s, a)
    ensures FlagFollows(Do(s, a), a.Clear? || (!a.Push? && !a.WakeUp? && cleared))
  {
    RingStaysValid(s, a);
    if a.Push? {
      PushMeaning(s.ring, s.next);
    } else if a.Drain? {
      DrainMeaning(s.ring, MAX_SEND_BATCH);
    } else if !a.Clear? && !a.WakeUp? {
      RingUntouched(s, a);
    }
  }

  lemma {:induction false} FlagOverRun(n: nat, actions: seq<Action>, k: nat)
    requires n >= 1 && CanRun(Init(n), actions) && k <= |actions|
    ensures FlagFollows(Trace(Init(n), actions)[k], ClearedLast(actions[..k]))
  {
    TraceEnds(Init(n), actions);
    if k > 0 {
      FlagOverRun(n, actions, k - 1);
      TraceStep(Init(n), actions, k - 1);
      assert actions[..k][..k - 1] == actions[..k - 1];
      FlagStep(Trace(Init(n), actions)[k - 1], actions[k - 1], ClearedLast(actions[..k - 1]));
    }
  }

  /** The background thread waits although enough is buffered, and nothing will wake it before its timer. */
  predicate Missed(s: State)
    requires s.ring.Valid()
  {
    |s.flushers| > 0 && s.flushers[0].Waiting? && |s.ring.Contents()| >= FLUSH_THRESHOLD && !s.ring.flushNow
  }

  /**
   With fifty or more events buffered the wake-up flag is clear exactly when nothing was pushed and
   nobody called for attention since it was last cleared. So the waiting thread has missed a wake-up
   exactly when what is buffered was all there before that clear; and then its last flush, which
   should have taken it, ended on an error.
   */
  lemma WakeUpMissedExactlyWhen(n: nat, actions: seq<Action>)
    requires n >= 1 && CanRun(Init(n), actions)
    ensures var s := Run(Init(n), actions);
            && (|s.ring.Contents()| >= FLUSH_THRESHOLD ==> (!s.ring.flushNow <==> ClearedLast(actions)))
            && (Missed(s) <==> |s.flushers| > 0 && s.flushers[0].Waiting? && |s.ring.Contents()| >= FLUSH_THRESHOLD && ClearedLast(actions))
            && (Missed(s) ==> !s.endedEmpty)
  {
    assert actions[..|actions|] == actions;
    TraceEnds(Init(n), actions);
    FlagOverRun(n, actions, |actions|);
    NoLostWakeUp(n, actions);
  }

  // ------------------------------------------------------ single interleavings

  lemma {:induction false} RunOneMore(s: State, actions: seq<Action>, a: Action)
    requires s.ring.Valid() && CanRun(s, actions) && Enabled(Run(s, actions), a)
    ensures CanRun(s, actions + [a]) && Run(s, actions + [a]) == Do(Run(s, actions), a)
    decreases |actions|
  {
    var more := actions + [a];
    if actions == [] {
      assert more[1..] == [];
      RingStaysValid(s, a);
    } else {
      RingStaysValid(s, actions[0]);
      assert more[0] == actions[0] && more[1..] == actions[1..] + [a];
      RunOneMore(Do(s, actions[0]), actions[1..], a);
    }
  }

  ghost predicate Reaches(actions: seq<Action>, s: State) {
    CanRun(Init(2), actions) && Run(Init(2), actions) == s
  }

  lemma OneMore(actions: seq<Action>, s: State, a: Action) returns (more: seq<Action>, t: State)
    requires Reaches(actions, s) && Enabled(s, a)
    ensures Reaches(more, t) && t == Do(s, a) && t.ring.Valid() && more == actions + [a]
  {
    RunOneMore(Init(2), actions, a);
    more, t := actions + [a], Do(s, a);
    RingStaysValid(s, a);
  }

  /** The background thread comes to its wait, and to a flush when the wait times out. */
  lemma TimesOut(actions: seq<Action>, s: State) returns (more: seq<Action>, t: State)
    requires Reaches(actions, s) && s.ring.Valid() && s.flushers == [AtTop, Idle] && !s.stop
    ensures Reaches(more, t) && more == actions + [LoopTop, WaitTimesOut]
    ensures t == s.(flushers := [Draining, Idle])
  {
    more, t := OneMore(actions, s, LoopTop);
    more, t := OneMore(more, t, WaitTimesOut);
  }

  /** Thread 1 writes a denial, event 0, to an overflow file. */
  lemma ReachDenialOnDisk() returns (actions: seq<Action>, s: State)
    ensures Reaches(actions, s)
    ensures s == Init(2).(next := 1, disk := [Line(0, 7)])
  {
    actions, s := [], Init(2);
    actions, s := OneMore(actions, s, Deny(1));
    actions, s := OneMore(actions, s, OpenFile(1, 7));
    assert s.flushers[1] == Denying(0, Some(Fd(7, 0)));
    actions, s := OneMore(actions, s, Append(1, Written));
    assert s.flushers == [AtTop, Idle] == Init(2).flushers;
  }

  /** The background thread is about to drain event 1. */
  lemma ReachDraining() returns (actions: seq<Action>, s: State)
    ensures Reaches(actions, s) && s.ring.Valid()
    ensures s.flushers == [Draining, Idle] && s.disk == [Line(0, 7)] && s.next == 2 && s.ring.Contents() == [1]
    ensures s.epochs == map[] && s.ledger == Ledger([], [], [], [], [], [], []) && s.sent == []
  {
    actions, s := ReachDenialOnDisk();
    actions, s := OneMore(actions, s, Push);
    actions, s := TimesOut(actions, s);
  }

  /** A thread that finds one event in the buffer delivers it and lists the overflow directory. */
  lemma DeliverAndList(actions: seq<Action>, s: State) returns (more: seq<Action>, t: State)
    requires Reaches(actions, s) && s.ring.Valid() && s.flushers == [Draining, Idle] && |s.ring.Contents()| == 1
    ensures Reaches(more, t) && t.ring.Valid() && t.ring.Contents() == []
    ensures t == s.(ring := t.ring, flushers := [Files([7]), Idle],
                    ledger := s.ledger.(accepted := s.ledger.accepted + s.ring.Contents()))
  {
    DrainMeaning(s.ring, MAX_SEND_BATCH);
    more, t := OneMore(actions, s, Drain(0));
    assert s.ring.Contents()[..1] == s.ring.Contents();
    more, t := OneMore(more, t, Send(0, Accepted));
    more, t := OneMore(more, t, List(0, [7]));
  }

  /** It reads the overflow file and sends what it read. */
  lemma ReadAndSend(actions: seq<Action>, s: State) returns (more: seq<Action>, t: State)
    requires Reaches(actions, s) && s.ring.Valid() && s.flushers == [Files([7]), Idle] && s.disk == [Line(0, 7)]
    ensures Reaches(more, t) && t.ring.Valid()
    ensures t == s.(flushers := [Replaying(7, [], [0], 1), Idle], sent := s.sent + [0])
  {
    OneFile(s.disk, 7);
    assert LineIds(s.disk) == [0];
    assert [7][1..] == [];
    more, t := OneMore(actions, s, ReadFile(0, true));
    assert t.flushers[0] == Replaying(7, [], [0], 0);
    more, t := OneMore(more, t, SendChunk(0, true));
  }

  lemma {:induction false} OneFile(disk: seq<Line>, day: nat)
    requires forall line :: line in disk ==> line.day == day
    ensures InFile(disk, day, true) == disk && InFile(disk, day, false) == []
  {
    if disk != [] {
      OneFile(disk[..|disk| - 1], day);
    }
  }

  /** The file has been read and sent, and only then a caller's thread comes to write a denial and opens it. */
  lemma ReachLateDenial() returns (actions: seq<Action>, s: State)
    ensures Reaches(actions, s) && s.ring.Valid()
    ensures s.flushers == [Replaying(7, [], [0], 1), Denying(2, Some(Fd(7, 0)))] && s.disk == [Line(0, 7)]
    ensures s.epochs == map[] && s.ledger.clobbered == [] && s.ledger.orphaned == [] && s.sent == [0]
  {
    actions, s := ReachDraining();
    actions, s := DeliverAndList(actions, s);
    actions, s := ReadAndSend(actions, s);
    actions, s := OneMore(actions, s, Deny(1));
    actions, s := OneMore(actions, s, OpenFile(1, 7));
  }

  /**
   A fail-closed denial is lost when it is written after the flusher has read the day's file and
   before it deletes it: it was never sent, and is gone.
   */
  lemma DenialDuringReplayIsLost() returns (actions: seq<Action>, s: State)
    ensures Reaches(actions, s)
    ensures s.ledger.clobbered == [2] && Lost(s, 2) && s.disk == []
  {
    actions, s := ReachLateDenial();
    actions, s := OneMore(actions, s, Append(1, Written));
    assert s.disk == [Line(0, 7), Line(2, 7)];
    OneFile(s.disk, 7);
    LateLine();
    actions, s := OneMore(actions, s, Unlink(0, true));
  }

  lemma LateLine()
    ensures Among([Line(0, 7), Line(2, 7)], [0], false) == [2]
  {
    assert [Line(0, 7), Line(2, 7)][..1] == [Line(0, 7)];
  }

  /** It is lost as well when the file is opened before the deletion and written to after it. */
  lemma DenialToDeletedFileIsLost() returns (actions: seq<Action>, s: State)
    ensures Reaches(actions, s)
    ensures s.ledger.orphaned == [2] && s.ledger.clobbered == [] && Lost(s, 2) && s.disk == []
  {
    actions, s := ReachLateDenial();
    OneFile(s.disk, 7);
    assert Among([Line(0, 7)], [0], false) == [];
    actions, s := OneMore(actions, s, Unlink(0, true));
    actions, s := OneMore(actions, s, Append(1, Written));
  }

  /** A file that could not be deleted is replayed again, and the server gets its events twice. */
  lemma ReplayedTwice() returns (actions: seq<Action>, s: State)
    ensures Reaches(actions, s)
    ensures s.sent == [0, 0]
  {
    actions, s := ReachDraining();
    actions, s := DeliverAndList(actions, s);
    actions, s := ReadAndSend(actions, s);
    actions, s := OneMore(actions, s, Unlink(0, false));
    actions, s := OneMore(actions, s, EndReplay(0));
    PushMeaning(s.ring, s.next);
    actions, s := OneMore(actions, s, Push);
    actions, s := DeliverAndList(actions, s);
    actions, s := ReadAndSend(actions, s);
  }

  /** flush_all returns while the background thread still holds the event that was buffered before. */
  lemma FlushAllReturnsEarly() returns (actions: seq<Action>, s: State)
    ensures Reaches(actions, s) && s.ring.Valid()
    ensures |actions| == 6 && actions[0] == Push && actions[4] == CallFlushAll(1) && actions[5] == Drain(1)
    ensures s.flushers == [Sending([0]), Idle] && s.ledger.accepted == [] && s.ring.Contents() == []
  {
    actions, s := [], Init(2);
    actions, s := OneMore(actions, s, Push);
    actions, s := TimesOut(actions, s);
    assert s.ring.Contents() == [0];
    assert [0][..1] == [0];
    actions, s := OneMore(actions, s, Drain(0));
    actions, s := OneMore(actions, s, CallFlushAll(1));
    actions, s := OneMore(actions, s, Drain(1));
  }

  /** n pushes in a row, with nothing else going on. */
  lemma {:induction false} PushMany(actions: seq<Action>, s: State, n: nat) returns (more: seq<Action>, t: State)
    requires Reaches(actions, s) && s.ring.Valid() && |s.ring.Contents()| + n < RING_CAP
    ensures Reaches(more, t) && t.ring.Valid()
    ensures |t.ring.Contents()| == |s.ring.Contents()| + n && t.flushers == s.flushers && t.stop == s.stop
    decreases n
  {
    more, t := actions, s;
    if n > 0 {
      PushMeaning(s.ring, s.next);
      more, t := OneMore(actions, s, Push);
      more, t := PushMany(more, t, n - 1);
    }
  }

  /** The waiting background thread is woken, clears the flag and is about to drain. */
  lemma Woken(actions: seq<Action>, s: State) returns (more: seq<Action>, t: State)
    requires Reaches(actions, s) && s.ring.Valid() && s.flushers == [Waiting, Idle] && !s.stop
    ensures Reaches(more, t) && t.ring.Valid()
    ensures t == s.(ring := s.ring.(flushNow := false), flushers := [Draining, Idle])
  {
    more, t := OneMore(actions, s, WakeUp);
    more, t := OneMore(more, t, WaitTriggered);
    more, t := OneMore(more, t, Clear);
  }

  lemma ReachFullDrain() returns (actions: seq<Action>, s: State)
    ensures Reaches(actions, s) && s.ring.Valid()
    ensures s.flushers == [Draining, Idle] && !s.ring.flushNow && !s.stop
    ensures |s.ring.Contents()| == MAX_SEND_BATCH + FLUSH_THRESHOLD
  {
    actions, s := [], Init(2);
    actions, s := OneMore(actions, s, LoopTop);
    actions, s := PushMany(actions, s, MAX_SEND_BATCH + FLUSH_THRESHOLD);
    actions, s := Woken(actions, s);
  }

  /**
   A wake-up can be lost after a flush that ended on an error: the rest of the buffer stays behind with
   the flag already cleared, and the background thread waits although fifty events are buffered.
   So `endedEmpty` in Pipeline.NoLostWakeUp cannot be left out.
   */
  lemma ErrorLosesWakeUp() returns (actions: seq<Action>, s: State)
    ensures Reaches(actions, s) && s.ring.Valid()
    ensures s.flushers == [Waiting, Idle] && |s.ring.Contents()| >= FLUSH_THRESHOLD && !s.ring.flushNow
  {
    actions, s := ReachFullDrain();
    DrainMeaning(s.ring, MAX_SEND_BATCH);
    actions, s := OneMore(actions, s, Drain(0));
    assert s.flushers[0].Sending? && !s.ring.flushNow && !s.stop && |s.ring.Contents()| == FLUSH_THRESHOLD;
    actions, s := OneMore(actions, s, Send(0, ApiError));
    actions, s := OneMore(actions, s, LoopTop);
  }
}
