/**
 One flush, in the form the thread runs it: drain a batch, deliver it, replay the overflow, repeat
 until the buffer is empty or something fails. Concurrency is the subject of `Pipeline`; here the
 flush runs by itself, with its loops, against the actual buffer and the actual files.

 `FlushOf` says, from the answers of the server and the faults of the disk, where a flush ends and what
 it leaves behind; the lemmas say what that means; the class performs it.
 */
module Flusher {
  import opened Wrappers
  import opened FileNames
  import opened Http
  import opened AuditBuffer
  import opened Overflow
  import opened OverflowLaws

  /** How a flush ends. */
  datatype End = Emptied | ServerDown | BatchRefused | Unexpected

  /** The writes of a failed batch, one event after another, the faults taken from the n-th on. */
  function Writings<E>(events: seq<E>, io: nat -> WriteIo, n: nat): seq<Writing<E>> {
    seq(|events|, i requires 0 <= i < |events| => Writing(events[i], io(n + i)))
  }

  /** Drains needed for `size` events, the last empty one included. */
  function MaxDrains(size: nat): nat {
    if size == 0 then 1 else 1 + MaxDrains(if size <= MAX_SEND_BATCH then 0 else size - MAX_SEND_BATCH)
  }

  /** That is the number of full or partial batches, and one more. */
  lemma {:induction false} MaxDrainsIsCeiling(size: nat)
    ensures MaxDrains(size) == (size + 99) / 100 + 1
  {
    if size > MAX_SEND_BATCH {
      MaxDrainsIsCeiling(size - MAX_SEND_BATCH);
    }
  }

  // ------------------------------------------------------------ a flush, as a value

  /** What does not change during a flush: the encoder, and all answers and faults to come. */
  datatype Outside<!E> = Outside(
    codec: Codec<E>, agentId: string, writable: bool,
    replies: nat -> Reply<()>, writeIo: nat -> WriteIo, replayIo: nat -> ReplayIo)

  /** What does: the buffer, the files, what the server confirmed, and how much of the outside was used up. */
  datatype Progress<E> = Progress(
    buffer: seq<E>, store: Store, accepted: seq<E>, calls: nat, writes: nat, replays: nat)

  /** The batch could not be delivered. */
  predicate Lost(end: Option<End>) {
    end == Some(ServerDown) || end == Some(BatchRefused)
  }

  /** The files a replay goes through, in its order. */
  ghost function Listed<E>(o: Outside<E>, p: Progress<E>): seq<string> {
    if o.writable && o.replayIo(p.replays).listOk then ListingOf(set n | n in p.store.files && IsOverflowName(n)) else []
  }

  /** The replay that follows a delivery. */
  ghost function ReplayNext<E>(o: Outside<E>, p: Progress<E>): Replayed<E> {
    ReplayAll(o.codec, p.store.files, Listed(o, p), o.replies, p.calls + 1, o.replayIo(p.replays))
  }

  /** A batch that met no server, on disk. */
  function Spilled<E>(o: Outside<E>, p: Progress<E>, events: seq<E>): Store {
    if o.writable then RunWrites(o.codec, o.agentId, p.store, Writings(events, o.writeIo, p.writes)) else p.store
  }

  /** One batch handed to the server, by its answer. None means the flush goes on. */
  ghost function DeliveryOf<E>(o: Outside<E>, p: Progress<E>, events: seq<E>): (Progress<E>, Option<End>) {
    match AnswerOf(o.replies(p.calls))
    case Delivered =>
      var r := ReplayNext(o, p);
      (p.(store := p.store.(files := r.files), accepted := p.accepted + events + r.accepted, calls := r.calls,
          replays := p.replays + 1),
       if r.raised then Some(Unexpected) else None)
    case Unreachable =>
      (p.(store := Spilled(o, p, events), calls := p.calls + 1, writes := p.writes + |events|), Some(ServerDown))
    case _ => (p.(calls := p.calls + 1), Some(BatchRefused))
  }

  function NextBatch<E>(buffer: seq<E>): seq<E> { buffer[..MinNat(MAX_SEND_BATCH, |buffer|)] }

  function AfterBatch<E>(buffer: seq<E>): seq<E> { buffer[MinNat(MAX_SEND_BATCH, |buffer|)..] }

  ghost function TurnOf<E>(o: Outside<E>, p: Progress<E>): (Progress<E>, Option<End>) {
    if p.buffer == [] then (p, Some(Emptied))
    else DeliveryOf(o, p.(buffer := AfterBatch(p.buffer)), NextBatch(p.buffer))
  }

  ghost function FlushOf<E>(o: Outside<E>, p: Progress<E>): (Progress<E>, End)
    decreases |p.buffer|
  {
    var (q, end) := TurnOf(o, p);
    if end.Some? then (q, end.value) else FlushOf(o, q)
  }

  // ----------------------------------------------------------------- the thread

  class Flusher<E(0)> {
    const buffer: LogBuffer<E>
    const server: Server<E>
    const overflow: OverflowWriter<E>
    const writeIo: nat -> WriteIo
    const replayIo: nat -> ReplayIo
    var writes: nat
    var replays: nat

    constructor (buffer: LogBuffer<E>, server: Server<E>, overflow: OverflowWriter<E>, writeIo: nat -> WriteIo, replayIo: nat -> ReplayIo)
      ensures this.buffer == buffer && this.server == server && this.overflow == overflow
      ensures this.writeIo == writeIo && this.replayIo == replayIo && writes == 0 && replays == 0
    {
      this.buffer, this.server, this.overflow := buffer, server, overflow;
      this.writeIo, this.replayIo := writeIo, replayIo;
      writes, replays := 0, 0;
    }

    ghost function Around(): Outside<E> {
      Outside(overflow.codec, overflow.agentId, overflow.writable, server.replies, writeIo, replayIo)
    }

    ghost function Position(): Progress<E>
      reads this, buffer, buffer.buf, buffer.buf.data, server, overflow
      requires buffer.Valid()
    {
      Progress(buffer.ring.Contents(), overflow.State(), server.accepted, server.calls, writes, replays)
    }

    /** A batch that could not be delivered goes to disk, in order. */
    method Spill(events: seq<E>)
      modifies this`writes, overflow
      ensures writes == old(writes) + |events|
      ensures overflow.State()
              == if overflow.writable
                 then RunWrites(overflow.codec, overflow.agentId, old(overflow.State()), Writings(events, writeIo, old(writes)))
                 else old(overflow.State())
    {
      for i := 0 to |events|
        invariant writes == old(writes) + i
        invariant overflow.State()
                  == if overflow.writable
                     then RunWrites(overflow.codec, overflow.agentId, old(overflow.State()), Writings(events[..i], writeIo, old(writes)))
                     else old(overflow.State())
      {
        ghost var front := Writings(events[..i], writeIo, old(writes));
        assert Writings(events[..i + 1], writeIo, old(writes)) == front + [Writing(events[i], writeIo(old(writes) + i))];
        overflow.Write(events[i], writeIo(writes));
        writes := writes + 1;
      }
      assert events[..|events|] == events;
    }

    /** The replay after a delivery: what it does to the files and the server is settled by what it meets. */
    method ReplayOverflow(ghost p: Progress<E>) returns (raised: bool)
      requires p.store == overflow.State() && server.calls == p.calls + 1 && replays == p.replays
      modifies this`replays, server, overflow
      ensures var r := ReplayNext(Around(), p);
              && raised == r.raised && overflow.State() == p.store.(files := r.files)
              && server.accepted == old(server.accepted) + r.accepted && server.calls == r.calls
      ensures replays == p.replays + 1
    {
      var names;
      raised, names := overflow.Replay(server, replayIo(replays));
      if overflow.writable && replayIo(replays).listOk {
        ListingIsUnique(names, Listed(Around(), p), set n | n in p.store.files && IsOverflowName(n));
      }
      replays := replays + 1;
    }

    /** Deliver one batch and, if that worked, replay the overflow. None means the flush goes on. */
    method Deliver(events: seq<E>) returns (end: Option<End>)
      requires buffer.Valid() && 0 < |events| <= MAX_SEND_BATCH
      modifies this, server, overflow
      ensures buffer.Valid() && (Position(), end) == DeliveryOf(Around(), old(Position()), events)
    {
      ghost var p := Position();
      var answer := server.LogBatch(events);
      match answer {
        case Delivered =>
          var raised := ReplayOverflow(p);
          assert server.accepted == p.accepted + events + ReplayNext(Around(), p).accepted;
          end := if raised then Some(Unexpected) else None;
          assert Position() == DeliveryOf(Around(), p, events).0;
        case Unreachable =>
          Spill(events);
          end := Some(ServerDown);
          assert Position() == DeliveryOf(Around(), p, events).0;
        case Refused =>
          assert Position() == DeliveryOf(Around(), p, events).0;
          end := Some(BatchRefused);
        case TooMany =>
          assert false;
      }
    }

    /** One turn of the loop: drain a batch and deliver it. An empty drain ends the flush. */
    method Turn() returns (end: Option<End>)
      requires buffer.Valid()
      modifies this, buffer`ring, buffer.buf`start, buffer.buf`len, server, overflow
      ensures buffer.Valid() && buffer.ring.history == old(buffer.ring.history)
      ensures (Position(), end) == TurnOf(Around(), old(Position()))
    {
      ghost var p := Position();
      DrainMeaning(buffer.ring, MAX_SEND_BATCH);
      var events := buffer.Drain(MAX_SEND_BATCH);
      assert Position() == p.(buffer := AfterBatch(p.buffer)) && events == NextBatch(p.buffer);
      if events == [] {
        return Some(Emptied);
      }
      end := Deliver(events);
    }

    /** A whole flush ends where and as `FlushOf` says, after a bounded number of drains. */
    method DoFlush() returns (end: End, drains: nat)
      requires buffer.Valid()
      modifies this, buffer`ring, buffer.buf`start, buffer.buf`len, server, overflow
      ensures buffer.Valid() && buffer.ring.history == old(buffer.ring.history)
      ensures (Position(), end) == FlushOf(Around(), old(Position()))
      ensures drains <= MaxDrains(|old(Position()).buffer|)
    {
      ghost var o, p := Around(), Position();
      ghost var here := p;
      drains := 0;
      var result: Option<End> := None;
      while result == None
        invariant buffer.Valid() && buffer.buf.data == old(buffer.buf.data)
        invariant buffer.ring.history == old(buffer.ring.history)
        invariant here == Position()
        invariant FlushOf(o, p) == if result == None then FlushOf(o, here) else (here, result.value)
        invariant if result == None then drains + MaxDrains(|here.buffer|) <= MaxDrains(|p.buffer|)
                  else drains <= MaxDrains(|p.buffer|)
        decreases result == None, |here.buffer|
      {
        FlushStep(o, here);
        result := Turn();
        here := Position();
        drains := drains + 1;
      }
      end := result.value;
    }
  }

  /** A flush is a turn and, unless that ended it, the flush of what is left, with one drain less to go. */
  lemma FlushStep<E>(o: Outside<E>, p: Progress<E>)
    ensures var (q, end) := TurnOf(o, p);
            && FlushOf(o, p) == (if end.Some? then (q, end.value) else FlushOf(o, q))
            && (end == None ==> |q.buffer| < |p.buffer| && MaxDrains(|q.buffer|) + 1 == MaxDrains(|p.buffer|))
            && MaxDrains(|p.buffer|) >= 1
  {
    OneDrain(|p.buffer|);
  }

  lemma OneDrain(size: nat)
    ensures if size == 0 then MaxDrains(size) == 1
            else MaxDrains(size - MinNat(MAX_SEND_BATCH, size)) + 1 == MaxDrains(size)
    ensures MaxDrains(size) >= 1
  {
  }

  // ------------------------------------------------------- what a flush achieves

  /** The position after k turns. */
  ghost function AfterTurns<E>(o: Outside<E>, p: Progress<E>, k: nat): Progress<E>
    decreases k
  {
    if k == 0 then p else AfterTurns(o, TurnOf(o, p).0, k - 1)
  }

  /** The next batch is delivered. */
  ghost predicate Delivers<E>(o: Outside<E>, p: Progress<E>) {
    p.buffer != [] && AnswerOf(o.replies(p.calls)).Delivered?
  }

  /** The replay after the next delivery meets a listed, readable file that is not UTF-8. */
  ghost predicate Stumbles<E>(o: Outside<E>, p: Progress<E>) {
    AnyBlocking(p.store.files, o.replayIo(p.replays), Listed(o, p), |Listed(o, p)|)
  }

  /** How many batches a flush delivers. */
  ghost function Rounds<E>(o: Outside<E>, p: Progress<E>): nat
    decreases |p.buffer|
  {
    if !Delivers(o, p) then 0
    else 1 + if TurnOf(o, p).1 == None then Rounds(o, TurnOf(o, p).0) else 0
  }

  function Batches(size: nat): nat { (size + MAX_SEND_BATCH - 1) / MAX_SEND_BATCH }

  lemma TurnMeaning<E(!new)>(o: Outside<E>, p: Progress<E>)
    ensures TurnOf(o, p).1 == None <==> Delivers(o, p) && !Stumbles(o, p)
    ensures TurnOf(o, p).1 == Some(Unexpected) <==> Delivers(o, p) && Stumbles(o, p)
    ensures TurnOf(o, p).1 == Some(ServerDown) <==> p.buffer != [] && AnswerOf(o.replies(p.calls)).Unreachable?
    ensures TurnOf(o, p).1 == Some(BatchRefused) <==> p.buffer != [] && AnswerOf(o.replies(p.calls)).Refused?
    ensures TurnOf(o, p).1 == Some(Emptied) <==> p.buffer == []
  {
    if Delivers(o, p) {
      RaisesAtUndecodable(o.codec, p.store.files, Listed(o, p), |Listed(o, p)|, o.replies, p.calls + 1, o.replayIo(p.replays));
      assert Listed(o, p.(buffer := AfterBatch(p.buffer))) == Listed(o, p);
    }
  }

  /** Every batch there is to send is delivered, and no replay in between stumbles. */
  ghost predicate NothingFails<E>(o: Outside<E>, p: Progress<E>) {
    forall k: nat :: k < Batches(|p.buffer|) ==> Delivers(o, AfterTurns(o, p, k)) && !Stumbles(o, AfterTurns(o, p, k))
  }

  lemma NothingFailsStep<E>(o: Outside<E>, p: Progress<E>)
    requires p.buffer != []
    ensures NothingFails(o, p) <==> Delivers(o, p) && !Stumbles(o, p) && NothingFails(o, TurnOf(o, p).0)
  {
    var q := TurnOf(o, p).0;
    assert Batches(|p.buffer|) == Batches(|q.buffer|) + 1;
    assert AfterTurns(o, p, 0) == p;
    if NothingFails(o, p) {
      forall k: nat | k < Batches(|q.buffer|)
        ensures Delivers(o, AfterTurns(o, q, k)) && !Stumbles(o, AfterTurns(o, q, k))
      {
        assert AfterTurns(o, p, k + 1) == AfterTurns(o, q, k);
      }
    }
    if Delivers(o, p) && !Stumbles(o, p) && NothingFails(o, q) {
      forall k: nat | k < Batches(|p.buffer|)
        ensures Delivers(o, AfterTurns(o, p, k)) && !Stumbles(o, AfterTurns(o, p, k))
      {
        if k > 0 {
          assert AfterTurns(o, p, k) == AfterTurns(o, q, k - 1);
        }
      }
    }
  }

  /**
   A flush ends on an empty buffer, everything delivered, exactly when the server accepts every batch
   and no replay in between raises.
   */
  lemma {:induction false} EmptiesExactlyWhen<E(!new)>(o: Outside<E>, p: Progress<E>)
    ensures FlushOf(o, p).1 == Emptied <==> NothingFails(o, p)
    ensures FlushOf(o, p).1 == Emptied ==> FlushOf(o, p).0.buffer == []
    decreases |p.buffer|
  {
    TurnMeaning(o, p);
    if p.buffer != [] {
      NothingFailsStep(o, p);
      if TurnOf(o, p).1 == None {
        EmptiesExactlyWhen(o, TurnOf(o, p).0);
      } else {
        assert AfterTurns(o, p, 0) == p && Batches(|p.buffer|) > 0;
      }
    }
  }

  /** The end names the first failure: that of the turn after the delivered batches, or of the last replay. */
  lemma {:induction false} EndNamesFailure<E(!new)>(o: Outside<E>, p: Progress<E>)
    ensures var q := AfterTurns(o, p, Rounds(o, p));
            var (r, end) := FlushOf(o, p);
            if end == Unexpected then Rounds(o, p) > 0 && r == q && Stumbles(o, AfterTurns(o, p, Rounds(o, p) - 1))
            else (r, Some(end)) == TurnOf(o, q) && !Delivers(o, q)
    decreases |p.buffer|
  {
    TurnMeaning(o, p);
    if TurnOf(o, p).1 == None {
      var t := TurnOf(o, p).0;
      EndNamesFailure(o, t);
      assert AfterTurns(o, p, Rounds(o, p)) == AfterTurns(o, t, Rounds(o, t));
      if Rounds(o, t) > 0 {
        assert AfterTurns(o, p, Rounds(o, p) - 1) == AfterTurns(o, t, Rounds(o, t) - 1);
      }
    } else if Delivers(o, p) {
      assert AfterTurns(o, p, 1) == AfterTurns(o, TurnOf(o, p).0, 0);
    }
  }

  /** What each replay of a flush gets accepted, one entry for each delivered batch. */
  ghost function Extras<E>(o: Outside<E>, p: Progress<E>): seq<seq<E>>
    decreases |p.buffer|
  {
    if !Delivers(o, p) then []
    else [ReplayNext(o, p).accepted] + if TurnOf(o, p).1 == None then Extras(o, TurnOf(o, p).0) else []
  }

  /** Batch after batch from the front of the buffer, each followed by what its replay added. */
  function Woven<E>(buffer: seq<E>, extras: seq<seq<E>>): seq<E>
    decreases |extras|
  {
    if extras == [] then [] else NextBatch(buffer) + extras[0] + Woven(AfterBatch(buffer), extras[1..])
  }

  lemma SameReplay<E>(o: Outside<E>, p: Progress<E>, buffer: seq<E>)
    ensures ReplayNext(o, p.(buffer := buffer)) == ReplayNext(o, p)
  {
    assert Listed(o, p.(buffer := buffer)) == Listed(o, p);
  }

  lemma DeliveredTurn<E>(o: Outside<E>, p: Progress<E>)
    requires Delivers(o, p)
    ensures var q := TurnOf(o, p).0;
            && q.accepted == p.accepted + NextBatch(p.buffer) + ReplayNext(o, p).accepted
            && q.buffer == AfterBatch(p.buffer)
            && q.store == p.store.(files := ReplayNext(o, p).files)
  {
    SameReplay(o, p, AfterBatch(p.buffer));
  }

  lemma Weave<E>(before: seq<E>, batch: seq<E>, extra: seq<E>, more: seq<E>)
    ensures (before + batch + extra) + more == before + (batch + extra + more)
  {
  }

  lemma SkipBatches<E>(buffer: seq<E>, n: nat)
    requires buffer != []
    ensures AfterBatch(buffer)[MinNat(MAX_SEND_BATCH * n, |AfterBatch(buffer)|)..]
            == buffer[MinNat(MAX_SEND_BATCH * (n + 1), |buffer|)..]
  {
  }

  /** The delivered batches are taken from the front of the buffer, and confirmed in that order. */
  lemma {:induction false} DeliveredInOrder<E>(o: Outside<E>, p: Progress<E>)
    ensures var q := AfterTurns(o, p, Rounds(o, p));
            && |Extras(o, p)| == Rounds(o, p)
            && q.accepted == p.accepted + Woven(p.buffer, Extras(o, p))
            && q.buffer == p.buffer[MinNat(MAX_SEND_BATCH * Rounds(o, p), |p.buffer|)..]
    decreases |p.buffer|
  {
    if Delivers(o, p) {
      DeliveredTurn(o, p);
      SkipBatches(p.buffer, Rounds(o, p) - 1);
      var t := TurnOf(o, p).0;
      var rest := if TurnOf(o, p).1 == None then Extras(o, t) else [];
      assert Extras(o, p)[1..] == rest;
      Weave(p.accepted, NextBatch(p.buffer), ReplayNext(o, p).accepted, Woven(t.buffer, rest));
      assert AfterTurns(o, p, Rounds(o, p)) == AfterTurns(o, t, Rounds(o, p) - 1);
      if TurnOf(o, p).1 == None {
        DeliveredInOrder(o, t);
      }
    }
  }

  /** A turn that delivers nothing confirms nothing, and writes only a batch that met no server. */
  lemma FailedTurn<E>(o: Outside<E>, p: Progress<E>)
    requires !Delivers(o, p)
    ensures var (q, end) := TurnOf(o, p);
            var failed := if Lost(end) then NextBatch(p.buffer) else [];
            && end.Some? && q.accepted == p.accepted && p.buffer == failed + q.buffer
            && (failed != [] <==> Lost(end))
            && q.store == if end == Some(ServerDown) then Spilled(o, p, failed) else p.store
  {
  }

  lemma Rejoin<E>(buffer: seq<E>, k: nat, failed: seq<E>, rest: seq<E>)
    requires k <= |buffer| && buffer[k..] == failed + rest
    ensures buffer == buffer[..k] + failed + rest
  {
  }

  /**
   What a flush does, whatever goes wrong. The server has confirmed the delivered batches in buffer
   order, each followed by what its replay added; what is left splits into at most one failed batch
   and the rest of the buffer; a batch that met no server is on disk, and in no other case was anything
   written there.
   */
  lemma FlushMeaning<E(!new)>(o: Outside<E>, p: Progress<E>)
    ensures var q := AfterTurns(o, p, Rounds(o, p));
            var (r, end) := FlushOf(o, p);
            var failed := if Lost(Some(end)) then NextBatch(q.buffer) else [];
            && r.accepted == p.accepted + Woven(p.buffer, Extras(o, p))
            && p.buffer == p.buffer[..MinNat(MAX_SEND_BATCH * Rounds(o, p), |p.buffer|)] + failed + r.buffer
            && (failed != [] <==> Lost(Some(end)))
            && r.store == if end == ServerDown then Spilled(o, q, failed) else q.store
  {
    EndNamesFailure(o, p);
    DeliveredInOrder(o, p);
    var q := AfterTurns(o, p, Rounds(o, p));
    var (r, end) := FlushOf(o, p);
    var failed := if Lost(Some(end)) then NextBatch(q.buffer) else [];
    if end != Unexpected {
      FailedTurn(o, q);
    }
    Rejoin(p.buffer, MinNat(MAX_SEND_BATCH * Rounds(o, p), |p.buffer|), failed, r.buffer);
  }

  /** How it ends is decided by the answer to the first batch that was not delivered, or by the last replay. */
  lemma EndExactlyWhen<E(!new)>(o: Outside<E>, p: Progress<E>)
    ensures var q := AfterTurns(o, p, Rounds(o, p));
            var end := FlushOf(o, p).1;
            var stopped := q.buffer != [] && !Stumbled(o, p);
            && (end == ServerDown <==> stopped && AnswerOf(o.replies(q.calls)).Unreachable?)
            && (end == BatchRefused <==> stopped && AnswerOf(o.replies(q.calls)).Refused?)
            && (end == Unexpected <==> Stumbled(o, p))
            && (end == Emptied <==> q.buffer == [] && !Stumbled(o, p))
  {
    EndNamesFailure(o, p);
    StumbledExactlyWhen(o, p);
    TurnMeaning(o, AfterTurns(o, p, Rounds(o, p)));
  }

  /** The last replay of the flush raised. */
  ghost predicate Stumbled<E>(o: Outside<E>, p: Progress<E>) {
    Rounds(o, p) > 0 && Stumbles(o, AfterTurns(o, p, Rounds(o, p) - 1))
  }

  lemma {:induction false} StumbledExactlyWhen<E(!new)>(o: Outside<E>, p: Progress<E>)
    ensures FlushOf(o, p).1 == Unexpected <==> Stumbled(o, p)
    decreases |p.buffer|
  {
    TurnMeaning(o, p);
    if TurnOf(o, p).1 == None {
      var t := TurnOf(o, p).0;
      StumbledExactlyWhen(o, t);
      if Rounds(o, t) > 0 {
        assert AfterTurns(o, p, Rounds(o, p) - 1) == AfterTurns(o, t, Rounds(o, t) - 1);
      } else {
        assert AfterTurns(o, p, 0) == p;
      }
    } else if Delivers(o, p) {
      assert AfterTurns(o, p, 0) == p;
    }
  }

  lemma TurnLosesNothing<E(!new)>(o: Outside<E>, p: Progress<E>, path: string)
    requires Delivers(o, p) && path in p.store.files
    ensures var q := TurnOf(o, p).0;
            && (path in q.store.files ==> q.store.files[path] == p.store.files[path])
            && (path !in q.store.files ==> p.store.files[path].Text? && Contains(q.accepted, Offered(o.codec, p.store.files[path])))
  {
    DeliveredTurn(o, p);
    NextReplayLosesNothing(o, p, path);
    if path !in ReplayNext(o, p).files {
      PrependContains(p.accepted + NextBatch(p.buffer), ReplayNext(o, p).accepted, Offered(o.codec, p.store.files[path]));
    }
  }

  lemma NextReplayLosesNothing<E(!new)>(o: Outside<E>, p: Progress<E>, path: string)
    requires path in p.store.files
    ensures var r := ReplayNext(o, p);
            && (path in r.files ==> r.files[path] == p.store.files[path])
            && (path !in r.files ==> p.store.files[path].Text? && Contains(r.accepted, Offered(o.codec, p.store.files[path])))
  {
    var names := Listed(o, p);
    ReplayLosesNothing(o.codec, p.store.files, names, |names|, o.replies, p.calls + 1, o.replayIo(p.replays), path);
  }

  lemma PrependContains<E(!new)>(front: seq<E>, all: seq<E>, part: seq<E>)
    requires Contains(all, part)
    ensures Contains(front + all, part)
  {
    var before, after :| all == before + (part + after);
    assert front + all == (front + before) + (part + after);
  }

  /** The turns that deliver change no overflow file; they delete one only if all it offers is confirmed. */
  lemma {:induction false} DeliveriesLoseNoFile<E(!new)>(o: Outside<E>, p: Progress<E>, path: string)
    requires path in p.store.files
    ensures var q := AfterTurns(o, p, Rounds(o, p));
            && (path in q.store.files ==> q.store.files[path] == p.store.files[path])
            && (path !in q.store.files ==> p.store.files[path].Text? && Contains(q.accepted, Offered(o.codec, p.store.files[path])))
    decreases |p.buffer|
  {
    if Delivers(o, p) {
      TurnLosesNothing(o, p, path);
      var t := TurnOf(o, p).0;
      assert AfterTurns(o, p, Rounds(o, p)) == AfterTurns(o, t, Rounds(o, p) - 1);
      if TurnOf(o, p).1 == None {
        if path in t.store.files {
          DeliveriesLoseNoFile(o, t, path);
        } else {
          StaysDeleted(o, t, path);
          DeliveredInOrder(o, t);
          ContainsMore(t.accepted, Woven(t.buffer, Extras(o, t)), Offered(o.codec, p.store.files[path]));
        }
      }
    }
  }

  lemma TurnKeepsDeleted<E>(o: Outside<E>, p: Progress<E>, path: string)
    requires Delivers(o, p) && path !in p.store.files
    ensures path !in TurnOf(o, p).0.store.files
  {
    DeliveredTurn(o, p);
    NextReplayOnlyDeletes(o, p);
  }

  lemma NextReplayOnlyDeletes<E>(o: Outside<E>, p: Progress<E>)
    ensures forall path :: path in ReplayNext(o, p).files ==> path in p.store.files
  {
    var names := Listed(o, p);
    ReplayOnlyDeletes(o.codec, p.store, names, |names|, o.replies, p.calls + 1, o.replayIo(p.replays));
  }

  lemma {:induction false} StaysDeleted<E>(o: Outside<E>, p: Progress<E>, path: string)
    requires path !in p.store.files
    ensures path !in AfterTurns(o, p, Rounds(o, p)).store.files
    decreases |p.buffer|
  {
    if Delivers(o, p) {
      TurnKeepsDeleted(o, p, path);
      var t := TurnOf(o, p).0;
      assert AfterTurns(o, p, Rounds(o, p)) == AfterTurns(o, t, Rounds(o, p) - 1);
      if TurnOf(o, p).1 == None {
        StaysDeleted(o, t, path);
      }
    }
  }

  /** The events a flush appends to a file: those of the batch that met no server, as far as they reach it. */
  ghost function Appended<E>(o: Outside<E>, p: Progress<E>, path: string): seq<E> {
    var q := AfterTurns(o, p, Rounds(o, p));
    if FlushOf(o, p).1 == ServerDown && o.writable
    then Landed(o.codec, o.agentId, q.store, Writings(NextBatch(q.buffer), o.writeIo, q.writes), path)
    else []
  }

  lemma SameAccepted<E(!new)>(o: Outside<E>, p: Progress<E>)
    ensures FlushOf(o, p).0.accepted == AfterTurns(o, p, Rounds(o, p)).accepted
  {
    FlushMeaning(o, p);
    DeliveredInOrder(o, p);
  }

  lemma SpillOnlyAppends<E>(o: Outside<E>, q: Progress<E>, events: seq<E>, path: string)
    requires path in q.store.files
    ensures var landed := if o.writable then Landed(o.codec, o.agentId, q.store, Writings(events, o.writeIo, q.writes), path) else [];
            var t := Spilled(o, q, events);
            path in t.files && t.files[path] == Grown(o.codec, q.store.files[path], landed)
  {
    if o.writable {
      WritesOnlyAppend(o.codec, o.agentId, q.store, Writings(events, o.writeIo, q.writes), path);
    }
  }

  lemma LastTurnOnlyAppends<E(!new)>(o: Outside<E>, p: Progress<E>, path: string)
    requires path in AfterTurns(o, p, Rounds(o, p)).store.files
    ensures var r := FlushOf(o, p).0;
            && path in r.store.files
            && r.store.files[path] == Grown(o.codec, AfterTurns(o, p, Rounds(o, p)).store.files[path], Appended(o, p, path))
  {
    FlushMeaning(o, p);
    var q := AfterTurns(o, p, Rounds(o, p));
    SpillOnlyAppends(o, q, NextBatch(q.buffer), path);
  }

  /**
   What becomes of an overflow file in a flush, from its beginning to its end. Either it is still there
   and unchanged, apart from the lines that a batch which met no server has added to it; or it was
   readable text, the server has confirmed all the events it offers, together and in order, and it
   was deleted.
   */
  lemma FlushLosesNoFile<E(!new)>(o: Outside<E>, p: Progress<E>, path: string)
    requires path in p.store.files
    ensures var was, r := p.store.files[path], FlushOf(o, p).0;
            if path in AfterTurns(o, p, Rounds(o, p)).store.files
            then path in r.store.files && r.store.files[path] == Grown(o.codec, was, Appended(o, p, path))
            else was.Text? && Contains(r.accepted, Offered(o.codec, was))
  {
    DeliveriesLoseNoFile(o, p, path);
    SameAccepted(o, p);
    if path in AfterTurns(o, p, Rounds(o, p)).store.files {
      LastTurnOnlyAppends(o, p, path);
    }
  }

  // ----------------------------------------------------- a flush clears the overflow

  /** What a replay in a flush lists: the files that end in .ndjson. */
  lemma ListedExactly<E>(o: Outside<E>, p: Progress<E>, name: string)
    ensures name in Listed(o, p) <==>
              o.writable && o.replayIo(p.replays).listOk && name in p.store.files && EndsIn(name, ".ndjson")
  {
    OverflowNameMeans(name);
  }

  /** The server is up and the disk behaves. */
  ghost predicate AllIsWell<E>(o: Outside<E>, p: Progress<E>) {
    && o.writable && AlwaysUp(o.replies)
    && (forall i: nat :: o.replayIo(i).listOk && o.replayIo(i).unreadable == {} && o.replayIo(i).undeletable == {})
    && (forall n :: n in p.store.files ==> p.store.files[n].Text?)
  }

  ghost predicate NoOverflow(files: map<string, File>) {
    forall n :: n in files ==> !EndsIn(n, ".ndjson")
  }

  lemma ReplayClears<E(!new)>(o: Outside<E>, p: Progress<E>)
    requires AllIsWell(o, p)
    ensures var r := ReplayNext(o, p);
            && !r.raised && NoOverflow(r.files)
            && r.accepted == OfferedFirst(o.codec, p.store.files, Listed(o, p), |Listed(o, p)|)
            && forall n :: n in r.files ==> n in p.store.files && r.files[n] == p.store.files[n]
  {
    var names, io := Listed(o, p), o.replayIo(p.replays);
    assert Unhindered(p.store.files, names, o.replies, io);
    forall n ensures && !ReplayNext(o, p).raised
                     && ReplayNext(o, p).accepted == OfferedFirst(o.codec, p.store.files, names, |names|)
                     && (n in ReplayNext(o, p).files <==> n in p.store.files && !EndsIn(n, ".ndjson"))
                     && (n in ReplayNext(o, p).files ==> ReplayNext(o, p).files[n] == p.store.files[n])
    {
      OnlyOtherNamesAreLeft(o.codec, p.store.files, names, o.replies, p.calls + 1, io, n);
    }
  }

  /**
   When all is well a flush delivers everything, and if there was anything to deliver it leaves no
   overflow file behind.
   */
  lemma {:induction false} FlushClearsTheOverflow<E(!new)>(o: Outside<E>, p: Progress<E>)
    requires AllIsWell(o, p)
    ensures var (r, end) := FlushOf(o, p);
            && end == Emptied && r.buffer == []
            && (p.buffer != [] || NoOverflow(p.store.files) ==> NoOverflow(r.store.files))
    decreases |p.buffer|
  {
    if p.buffer != [] {
      assert AnswerOf(o.replies(p.calls)).Delivered?;
      SameReplay(o, p, AfterBatch(p.buffer));
      ReplayClears(o, p);
      var t := TurnOf(o, p).0;
      assert TurnOf(o, p).1 == None && t.store.files == ReplayNext(o, p).files;
      FlushClearsTheOverflow(o, t);
    }
  }
}
