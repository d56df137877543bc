/**
 What `flush_all` promises its caller: that the events buffered before the call are delivered when it
 returns. Traced for each event through a whole call, with every other thread running beside it.
 */
module FlushAll {
  import opened Wrappers
  import opened AuditBuffer
  import opened Pipeline

  /** Thread f calls flush_all at action j and is still in that call before action k. */
  ghost predicate InCall(states: seq<State>, actions: seq<Action>, f: nat, j: nat, k: nat)
    requires |states| == |actions| + 1
  {
    && j < k <= |actions| && actions[j] == CallFlushAll(f)
    && (forall m :: j < m <= k ==> f < |states[m].flushers| && !states[m].flushers[f].Idle?)
  }

  /** The thread drains an empty buffer, and so returns. */
  ghost predicate FindsEmpty(s: State, a: Action, f: nat) {
    a == Drain(f) && s.ring.Valid() && s.ring.Contents() == []
  }

  /** The thread takes the event out of the buffer. */
  ghost predicate Takes(s: State, a: Action, g: nat, x: nat) {
    a == Drain(g) && s.ring.Valid() && x in s.ring.Contents()[..MinNat(MAX_SEND_BATCH, |s.ring.Contents()|)]
  }

  ghost predicate TakenBy(states: seq<State>, actions: seq<Action>, g: nat, j: nat, k: nat, x: nat)
    requires |states| == |actions| + 1 && k <= |actions|
  {
    exists m :: j <= m < k && Takes(states[m], actions[m], g, x)
  }

  ghost predicate TakenBySome(states: seq<State>, actions: seq<Action>, j: nat, k: nat, x: nat)
    requires |states| == |actions| + 1 && k <= |actions|
  {
    exists g: nat :: TakenBy(states, actions, g, j, k, x)
  }

  predicate InHand(s: State, g: nat, x: nat) {
    g < |s.flushers| && x in HeldBy(s.flushers[g])
  }

  function EvictedFrom(r: Ring<nat>): seq<nat>
    requires |r.fates| <= |r.history|
  {
    Select(r.history, r.fates, Evicted)
  }

  // --------------------------------------------------- out of the buffer

  lemma EventsUntouched(s: State, a: Action)
    requires s.ring.Valid() && Enabled(s, a) && !a.Push? && !a.Drain?
    ensures var r := Do(s, a).ring;
            r.history == s.ring.history && r.fates == s.ring.fates && r.Contents() == s.ring.Contents()
  {
    if !a.Clear? && !a.WakeUp? {
      RingUntouched(s, a);
    }
  }

  /** A buffered event stays buffered until a flusher takes it or the full buffer evicts it. */
  lemma LeavesTheRing(s: State, a: Action, x: nat)
    requires s.ring.Valid() && Enabled(s, a) && x in s.ring.Contents()
    ensures Do(s, a).ring.Valid()
    ensures x in Do(s, a).ring.Contents() || x in EvictedFrom(Do(s, a).ring) || (a.Drain? && Takes(s, a, a.f, x))
  {
    RingStaysValid(s, a);
    match a
    case Push =>
      PushMeaning(s.ring, s.next);
      PushSelects(s.ring, s.next);
    case Drain(f) => DrainMeaning(s.ring, MAX_SEND_BATCH);
    case _ => EventsUntouched(s, a);
  }

  lemma EvictedStays(s: State, a: Action, x: nat)
    requires s.ring.Valid() && Enabled(s, a) && x in EvictedFrom(s.ring)
    ensures Do(s, a).ring.Valid() && x in EvictedFrom(Do(s, a).ring)
  {
    RingStaysValid(s, a);
    match a
    case Push => PushSelects(s.ring, s.next);
    case Drain(f) => DrainSelects(s.ring, MAX_SEND_BATCH);
    case _ => EventsUntouched(s, a);
  }

  /** Buffered, or lost to a buffer that was full. */
  ghost predicate InRingOrEvicted(s: State, x: nat) {
    s.ring.Valid() && (x in s.ring.Contents() || x in EvictedFrom(s.ring))
  }

  lemma RingStep(s: State, a: Action, x: nat)
    requires InRingOrEvicted(s, x) && Enabled(s, a)
    ensures InRingOrEvicted(Do(s, a), x) || (a.Drain? && Takes(s, a, a.f, x))
  {
    if x in s.ring.Contents() {
      LeavesTheRing(s, a, x);
    } else {
      EvictedStays(s, a, x);
    }
  }

  lemma TakenLater(states: seq<State>, actions: seq<Action>, j: nat, k: nat, x: nat)
    requires |states| == |actions| + 1 && k < |actions| && TakenBySome(states, actions, j, k, x)
    ensures TakenBySome(states, actions, j, k + 1, x)
  {
    var g: nat :| TakenBy(states, actions, g, j, k, x);
    assert TakenBy(states, actions, g, j, k + 1, x);
  }

  lemma {:induction false} BufferedOrTaken(n: nat, actions: seq<Action>, j: nat, k: nat, x: nat)
    requires n >= 1 && CanRun(Init(n), actions) && j <= k <= |actions|
    requires InRingOrEvicted(Trace(Init(n), actions)[j], x)
    ensures var states := Trace(Init(n), actions);
            InRingOrEvicted(states[k], x) || TakenBySome(states, actions, j, k, x)
    decreases k
  {
    if j < k {
      BufferedOrTaken(n, actions, j, k - 1, x);
      TraceStep(Init(n), actions, k - 1);
      var states := Trace(Init(n), actions);
      var s, a := states[k - 1], actions[k - 1];
      if TakenBySome(states, actions, j, k - 1, x) {
        TakenLater(states, actions, j, k - 1, x);
      } else {
        RingStep(s, a, x);
        assert a.Drain? && Takes(s, a, a.f, x) ==> TakenBy(states, actions, a.f, j, k, x);
      }
    }
  }

  // ------------------------------------------------------- into a hand

  /** One thread changed its phase, and holds nothing it did not hold before. */
  predicate OnlyLetsGo(s: State, t: State, g: nat) {
    && g < |s.flushers| == |t.flushers| && t.flushers == s.flushers[g := t.flushers[g]]
    && forall x :: x in HeldBy(t.flushers[g]) ==> x in HeldBy(s.flushers[g])
  }

  lemma AppendLetsGo(s: State, g: nat, outcome: WriteOutcome)
    requires Enabled(s, Append(g, outcome))
    ensures OnlyLetsGo(s, AppendBy(s, g, outcome), g)
  {
    AppendMoves(s, g, outcome);
    assert Write(s, NextId(s.flushers[g]), s.flushers[g].fd.value, outcome).flushers == s.flushers;
  }

  lemma SendLetsGo(s: State, g: nat, reply: Reply)
    requires Enabled(s, Send(g, reply))
    ensures OnlyLetsGo(s, SendBy(s, g, reply), g)
  {
  }

  lemma UnlinkLetsGo(s: State, g: nat, ok: bool)
    requires Enabled(s, Unlink(g, ok))
    ensures OnlyLetsGo(s, UnlinkBy(s, g, ok), g)
  {
  }

  lemma LoopLetsGo(s: State, a: Action)
    requires s.ring.Valid() && Enabled(s, a) && OfLoop(a)
    ensures forall h, x :: InHand(Do(s, a), h, x) ==> InHand(s, h, x)
  {
  }

  lemma OthersLetGo(s: State, a: Action)
    requires s.ring.Valid() && Enabled(s, a) && !MovesEvents(a)
    ensures forall h, x :: InHand(Do(s, a), h, x) ==> InHand(s, h, x)
  {
    if OfLoop(a) {
      LoopLetsGo(s, a);
    } else {
      match a
      case OpenFile(g, day) => assert OnlyLetsGo(s, OpenBy(s, g, day), g);
      case ReadFile(g, ok) => assert OnlyLetsGo(s, ReadBy(s, g, ok), g);
      case SendChunk(g, ok) => assert OnlyLetsGo(s, SendChunkBy(s, g, ok), g);
      case _ =>
    }
  }

  /** An event that exists comes into a thread's hands only by being taken out of the buffer. */
  lemma ComesByDrain(s: State, a: Action, h: nat, x: nat)
    requires s.ring.Valid() && Enabled(s, a) && x < s.next && InHand(Do(s, a), h, x)
    ensures InHand(s, h, x) || Takes(s, a, h, x)
  {
    if MovesEvents(a) {
      match a
      case Push =>
      case Deny(g) =>
      case Drain(g) =>
      case Send(g, reply) => SendLetsGo(s, g, reply);
      case Append(g, outcome) => AppendLetsGo(s, g, outcome);
      case Unlink(g, ok) => UnlinkLetsGo(s, g, ok);
    } else {
      OthersLetGo(s, a);
    }
  }

  lemma {:induction false} NextNeverFalls(n: nat, actions: seq<Action>, j: nat, k: nat)
    requires n >= 1 && CanRun(Init(n), actions) && j <= k <= |actions|
    ensures Trace(Init(n), actions)[j].next <= Trace(Init(n), actions)[k].next
    decreases k
  {
    if j < k {
      NextNeverFalls(n, actions, j, k - 1);
      TraceStep(Init(n), actions, k - 1);
      NextGrows(Trace(Init(n), actions)[k - 1], actions[k - 1]);
    }
  }

  lemma {:induction false} HeldSince(n: nat, actions: seq<Action>, j: nat, k: nat, h: nat, x: nat)
    requires n >= 1 && CanRun(Init(n), actions) && j <= k <= |actions|
    requires x < Trace(Init(n), actions)[j].next && InHand(Trace(Init(n), actions)[k], h, x)
    ensures var states := Trace(Init(n), actions);
            InHand(states[j], h, x) || TakenBy(states, actions, h, j, k, x)
    decreases k
  {
    if j < k {
      TraceStep(Init(n), actions, k - 1);
      NextNeverFalls(n, actions, j, k - 1);
      var states := Trace(Init(n), actions);
      ComesByDrain(states[k - 1], actions[k - 1], h, x);
      if InHand(states[k - 1], h, x) {
        HeldSince(n, actions, j, k - 1, h, x);
      }
    }
  }

  // -------------------------------------------------------- to the server

  /** The event is delivered, or about to be sent by thread f, or f has given up on the server. */
  predicate OnItsWay(s: State, f: nat, x: nat) {
    x in s.ledger.accepted
    || (f < |s.flushers| && (s.flushers[f].Spilling? || (s.flushers[f].Sending? && x in s.flushers[f].batch)))
  }

  lemma AcceptedStays(s: State, a: Action, x: nat)
    requires s.ring.Valid() && Enabled(s, a) && x in s.ledger.accepted
    ensures x in Do(s, a).ledger.accepted
  {
    match a
    case Send(f, reply) =>
    case Append(f, outcome) =>
    case _ =>
  }

  lemma TakenIsOnItsWay(s: State, f: nat, x: nat)
    requires s.ring.Valid() && Enabled(s, Drain(f)) && Takes(s, Drain(f), f, x)
    ensures OnItsWay(Do(s, Drain(f)), f, x)
  {
  }

  lemma SendOnItsWay(s: State, g: nat, reply: Reply, f: nat, x: nat)
    requires Enabled(s, Send(g, reply)) && OnItsWay(s, f, x) && x !in s.ledger.accepted
    requires f > 0 && !SendBy(s, g, reply).flushers[f].Idle?
    ensures OnItsWay(SendBy(s, g, reply), f, x)
  {
  }

  lemma AppendOnItsWay(s: State, g: nat, outcome: WriteOutcome, f: nat, x: nat)
    requires Enabled(s, Append(g, outcome)) && OnItsWay(s, f, x) && x !in s.ledger.accepted
    requires 0 < f < |AppendBy(s, g, outcome).flushers| && !AppendBy(s, g, outcome).flushers[f].Idle?
    ensures OnItsWay(AppendBy(s, g, outcome), f, x)
  {
    AppendMoves(s, g, outcome);
  }

  lemma LoopOnItsWay(s: State, a: Action, f: nat, x: nat)
    requires s.ring.Valid() && Enabled(s, a) && OfLoop(a) && OnItsWay(s, f, x) && x !in s.ledger.accepted && f > 0
    ensures OnItsWay(Do(s, a), f, x)
  {
  }

  lemma OthersOnItsWay(s: State, a: Action, f: nat, x: nat)
    requires s.ring.Valid() && Enabled(s, a) && OnItsWay(s, f, x) && x !in s.ledger.accepted && f > 0
    requires !OfLoop(a) && !a.Send? && !a.Append?
    ensures OnItsWay(Do(s, a), f, x)
  {
    match a
    case Unlink(g, ok) =>
    case _ =>
  }

  /** A caller's thread that gives up on the server writes its batch to disk and returns. */
  lemma StaysOnItsWay(s: State, a: Action, f: nat, x: nat)
    requires s.ring.Valid() && Enabled(s, a) && OnItsWay(s, f, x)
    requires 0 < f < |Do(s, a).flushers| && !Do(s, a).flushers[f].Idle?
    ensures OnItsWay(Do(s, a), f, x)
  {
    if x in s.ledger.accepted {
      AcceptedStays(s, a, x);
    } else if a.Send? {
      SendOnItsWay(s, a.f, a.reply, f, x);
    } else if a.Append? {
      AppendOnItsWay(s, a.f, a.outcome, f, x);
    } else if OfLoop(a) {
      LoopOnItsWay(s, a, f, x);
    } else {
      OthersOnItsWay(s, a, f, x);
    }
  }

  lemma {:induction false} OwnEventsOnTheirWay(n: nat, actions: seq<Action>, f: nat, j: nat, m: nat, k: nat, x: nat)
    requires n >= 1 && CanRun(Init(n), actions) && f > 0
    requires j <= m < k <= |actions| && InCall(Trace(Init(n), actions), actions, f, j, k)
    requires Takes(Trace(Init(n), actions)[m], actions[m], f, x)
    ensures OnItsWay(Trace(Init(n), actions)[k], f, x)
    decreases k
  {
    var states := Trace(Init(n), actions);
    TraceStep(Init(n), actions, k - 1);
    if m == k - 1 {
      TakenIsOnItsWay(states[m], f, x);
    } else {
      OwnEventsOnTheirWay(n, actions, f, j, m, k - 1, x);
      StaysOnItsWay(states[k - 1], actions[k - 1], f, x);
    }
  }

  // ------------------------------------------------------------ the promise

  lemma {:induction false} TraceConserved(n: nat, actions: seq<Action>, k: nat)
    requires n >= 1 && CanRun(Init(n), actions) && k <= |actions|
    ensures Conserved(Trace(Init(n), actions)[k])
  {
    TraceEnds(Init(n), actions);
    if k == 0 {
      InitConserved(n);
    } else {
      TraceConserved(n, actions, k - 1);
      TraceStep(Init(n), actions, k - 1);
      StepKeepsConserved(Trace(Init(n), actions)[k - 1], actions[k - 1]);
    }
  }

  /** The event's fate is decided, or it is safe on disk. */
  predicate Settled(s: State, x: nat)
    requires |s.ring.fates| <= |s.ring.history|
  {
    x in EvictedFrom(s.ring) || OnDisk(s.disk, x) >= 1 || Gone(s.ledger, x) >= 1
  }

  ghost predicate InSomeHand(s: State, x: nat) {
    exists g: nat :: InHand(s, g, x)
  }

  lemma {:induction false} CountOut(ids: seq<nat>, n: nat, x: nat)
    requires n <= |ids| && CountTo(ids, n, x) >= 1
    ensures x in ids
  {
    if ids[n - 1] != x {
      CountOut(ids, n - 1, x);
    }
  }

  lemma {:induction false} SomeoneHolds(s: State, n: nat, x: nat)
    requires n <= |s.flushers| && HeldTo(s.flushers, n, x) >= 1
    ensures InSomeHand(s, x)
  {
    var held := HeldBy(s.flushers[n - 1]);
    if Count(held, x) == 0 {
      SomeoneHolds(s, n - 1, x);
    } else {
      CountOut(held, |held|, x);
      assert InHand(s, n - 1, x);
    }
  }

  lemma NoPlaceLeft(s: State, x: nat)
    requires Conserved(s) && x < s.next && s.ring.Contents() == []
    ensures InSomeHand(s, x) <==> !Settled(s, x)
  {
    var evicted := EvictedFrom(s.ring);
    assert Places(s, x) == 1;
    if Held(s.flushers, x) >= 1 {
      SomeoneHolds(s, |s.flushers|, x);
    }
    if g: nat :| InHand(s, g, x) {
      CountIn(HeldBy(s.flushers[g]), |HeldBy(s.flushers[g])|, x);
      HeldByOne(s.flushers, g, |s.flushers|, x);
    }
    if x in evicted {
      CountIn(evicted, |evicted|, x);
    } else if Count(evicted, x) >= 1 {
      CountOut(evicted, |evicted|, x);
    }
  }

  lemma OwnEventsAccepted(n: nat, actions: seq<Action>, f: nat, j: nat, k: nat, x: nat)
    requires n >= 1 && CanRun(Init(n), actions) && k < |actions| && f > 0
    requires InCall(Trace(Init(n), actions), actions, f, j, k) && actions[k] == Drain(f)
    ensures var states := Trace(Init(n), actions);
            TakenBy(states, actions, f, j, k, x) ==> x in states[k].ledger.accepted
  {
    var states := Trace(Init(n), actions);
    if m :| j <= m < k && Takes(states[m], actions[m], f, x) {
      OwnEventsOnTheirWay(n, actions, f, j, m, k, x);
      TraceStep(Init(n), actions, k);
    }
  }

  lemma InOtherHands(n: nat, actions: seq<Action>, j: nat, k: nat, g: nat, x: nat)
    requires n >= 1 && CanRun(Init(n), actions) && j <= k <= |actions|
    requires x < Trace(Init(n), actions)[j].next
    ensures var states := Trace(Init(n), actions);
            InHand(states[k], g, x) ==> InHand(states[j], g, x) || TakenBy(states, actions, g, j, k, x)
  {
    if InHand(Trace(Init(n), actions)[k], g, x) {
      HeldSince(n, actions, j, k, g, x);
    }
  }

  /**
   When flush_all ends because it found the buffer empty, every event that existed when it was called
   has left the buffer. What the call took itself has been accepted by the server; what was buffered
   and not taken by it was evicted or taken by another thread. An event has not settled exactly if
   some other thread has it in hand, which had it from the start or took it during the call.
   */
  lemma FlushAllDelivers(n: nat, actions: seq<Action>, f: nat, j: nat, k: nat, x: nat)
    requires n >= 1 && CanRun(Init(n), actions) && k < |actions|
    requires InCall(Trace(Init(n), actions), actions, f, j, k)
    requires FindsEmpty(Trace(Init(n), actions)[k], actions[k], f)
    requires x < Trace(Init(n), actions)[j].next
    ensures var states := Trace(Init(n), actions);
            var s, t := states[j], states[k + 1];
            && s.ring.Valid() && t.ring.Valid() && t.ring.Contents() == [] && f < |t.flushers| && t.flushers[f].Idle?
            && (TakenBy(states, actions, f, j, k, x) ==> x in t.ledger.accepted)
            && (x in s.ring.Contents() ==> x in EvictedFrom(t.ring) || TakenBySome(states, actions, j, k, x))
            && (!Settled(t, x) <==> InSomeHand(t, x))
            && (forall g: nat :: InHand(t, g, x) ==>
                  g != f && (InHand(s, g, x) || TakenBy(states, actions, g, j, k, x)))
  {
    var states := Trace(Init(n), actions);
    TraceStep(Init(n), actions, j);
    TraceStep(Init(n), actions, k);
    EmptyDrain(states[k], f);
    if x in states[j].ring.Contents() {
      BufferedOrTaken(n, actions, j, k, x);
    }
    OwnEventsAccepted(n, actions, f, j, k, x);
    TraceConserved(n, actions, k + 1);
    NextNeverFalls(n, actions, j, k + 1);
    NoPlaceLeft(states[k + 1], x);
    forall g: nat | InHand(states[k + 1], g, x) {
      InOtherHands(n, actions, j, k, g, x);
    }
  }

  lemma EmptyDrain(s: State, f: nat)
    requires s.ring.Valid() && Enabled(s, Drain(f)) && f > 0 && s.ring.Contents() == []
    ensures var t := Do(s, Drain(f));
            && t.ring.Valid() && t.ring.Contents() == [] && EvictedFrom(t.ring) == EvictedFrom(s.ring)
            && t.flushers == s.flushers[f := Idle] && t.ledger == s.ledger
  {
    DrainMeaning(s.ring, MAX_SEND_BATCH);
    DrainSelects(s.ring, MAX_SEND_BATCH);
  }
}
