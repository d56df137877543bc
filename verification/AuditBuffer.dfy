/**
 The bounded ring of audit events shared by producers and flushers.

 `Ring` is the abstract value: every event ever pushed, in order, and what became of each event
 that has left the front. `Deque` is the circular array underneath, `LogBuffer` the buffer itself.
 Each method body is one critical section of the buffer's lock, so `Push` and `Drain` on `Ring`
 are also the atomic steps of the concurrent model in `Pipeline`.
 */
module AuditBuffer {

  const RING_CAP: nat := 1_000
  const FLUSH_THRESHOLD: nat := 50
  const MAX_SEND_BATCH: nat := 100

  /** How an event left the ring. */
  datatype Fate = Drained | Evicted

  function Repeat(f: Fate, n: nat): (fates: seq<Fate>)
    ensures |fates| == n && forall i :: 0 <= i < n ==> fates[i] == f
  {
    if n == 0 then [] else Repeat(f, n - 1) + [f]
  }

  function MinNat(a: nat, b: nat): nat { if a <= b then a else b }

  /**
   `history` holds all events pushed so far; the first |fates| of them have left, the others are
   still buffered. `flushNow` is the wake-up flag.
   */
  datatype Ring<T> = Ring(history: seq<T>, fates: seq<Fate>, flushNow: bool) {

    ghost predicate Valid() {
      && |fates| <= |history| <= |fates| + RING_CAP
      // an event is evicted only by the push that finds a full ring behind it
      && (forall i :: 0 <= i < |fates| && fates[i].Evicted? ==> i + RING_CAP < |history|)
    }

    function Contents(): seq<T>
      requires |fates| <= |history|
    {
      history[|fates|..]
    }

    function Push(event: T): Ring<T>
      requires |fates| <= |history|
    {
      var size := |history| - |fates|;
      Ring(
        history + [event],
        if size == RING_CAP then fates + [Evicted] else fates,
        flushNow || MinNat(size + 1, RING_CAP) >= FLUSH_THRESHOLD)
    }

    function Drain(n: nat): Ring<T>
      requires |fates| <= |history|
    {
      this.(fates := fates + Repeat(Drained, MinNat(n, |history| - |fates|)))
    }
  }

  /** The events that met a given fate, in push order. */
  function Select<T>(history: seq<T>, fates: seq<Fate>, f: Fate): seq<T>
    requires |fates| <= |history|
    decreases |fates|
  {
    if fates == [] then [] else
      var n := |fates| - 1;
      Select(history, fates[..n], f) + (if fates[n] == f then [history[n]] else [])
  }

  // ------------------------------------------------------- the bounded deque

  /** A double-ended queue of bounded length, kept in a circular array. */
  class Deque<T(0)> {
    const maxlen: nat
    var data: array<T>
    var start: nat
    var len: nat

    ghost predicate Valid()
      reads this
    {
      0 < maxlen == data.Length && start < maxlen && len <= maxlen
    }

    function At(i: nat): nat
      reads this
    {
      if start + i < maxlen then start + i else start + i - maxlen
    }

    ghost function Contents(): seq<T>
      reads this, data
      requires Valid()
    {
      seq(len, i requires 0 <= i < len reads this, data requires Valid() => data[At(i)])
    }

    constructor (maxlen: nat)
      requires 0 < maxlen
      ensures Valid() && fresh(data) && this.maxlen == maxlen && Contents() == []
    {
      this.maxlen := maxlen;
      data := new T[maxlen];
      start, len := 0, 0;
    }

    /** A full deque discards its oldest element to make room. */
    method Append(x: T)
      requires Valid()
      modifies this`start, this`len, data
      ensures Valid() && data == old(data)
      ensures Contents() == (if old(len) == maxlen then old(Contents())[1..] else old(Contents())) + [x]
    {
      if len == maxlen {
        data[start] := x;
        start := At(1);
      } else {
        data[At(len)] := x;
        len := len + 1;
      }
    }

    method PopLeft() returns (x: T)
      requires Valid() && len > 0
      modifies this`start, this`len
      ensures Valid() && len == old(len) - 1
      ensures x == old(Contents())[0] && Contents() == old(Contents())[1..]
    {
      x := data[start];
      start, len := At(1), len - 1;
    }
  }

  // -------------------------------------------------------------- the buffer

  class LogBuffer<T(0)> {
    const buf: Deque<T>
    var flushNow: bool
    ghost var ring: Ring<T>

    ghost predicate Valid()
      reads this, buf, buf.data
    {
      && buf.Valid() && buf.maxlen == RING_CAP
      && ring.Valid() && ring.Contents() == buf.Contents()
      && ring.flushNow == flushNow
    }

    constructor ()
      ensures Valid() && fresh(buf) && fresh(buf.data)
      ensures ring == Ring([], [], false)
    {
      buf := new Deque<T>(RING_CAP);
      flushNow := false;
      ring := Ring([], [], false);
    }

    method Push(event: T)
      requires Valid()
      modifies this, buf`start, buf`len, buf.data
      ensures Valid() && buf.data == old(buf.data)
      ensures ring == old(ring).Push(event)
    {
      PushMeaning(ring, event);
      buf.Append(event);
      ring := ring.Push(event);
      if buf.len >= FLUSH_THRESHOLD {
        flushNow := true;
      }
    }

    /** Pop and return up to `n` events, oldest first. */
    method Drain(n: nat) returns (events: seq<T>)
      requires Valid()
      modifies this`ring, buf`start, buf`len
      ensures Valid()
      ensures ring == old(ring).Drain(n)
      ensures events == old(ring).Contents()[..MinNat(n, |old(ring).Contents()|)]
    {
      var count := MinNat(n, buf.len);
      ghost var was := buf.Contents();
      events := [];
      for i := 0 to count
        invariant ring == old(ring) && flushNow == old(flushNow)
        invariant buf.Valid() && buf.data == old(buf.data) && buf.len == old(buf.len) - i
        invariant events == was[..i] && buf.Contents() == was[i..]
      {
        var event := buf.PopLeft();
        events := events + [event];
      }
      DrainMeaning(ring, n);
      ring := ring.Drain(n);
    }

    method Size() returns (size: nat)
      requires Valid()
      ensures size == |ring.Contents()| <= RING_CAP
    {
      size := buf.len;
    }

    /** Signal the flusher to run at once. */
    method Wake()
      requires Valid()
      modifies this`ring, this`flushNow
      ensures Valid() && ring == old(ring).(flushNow := true)
    {
      flushNow := true;
      ring := ring.(flushNow := true);
    }

    /** What the flusher does to the flag after a wait that was triggered. */
    method ClearFlushEvent()
      requires Valid()
      modifies this`ring, this`flushNow
      ensures Valid() && ring == old(ring).(flushNow := false)
    {
      flushNow := false;
      ring := ring.(flushNow := false);
    }
  }

  // ----------------------------------------------------- what the ring promises

  /**
   In terms of the buffered events alone: a push drops the oldest of a full ring of a thousand, and
   only then, and sets the flag exactly if it leaves fifty events or more.
   */
  lemma PushMeaning<T>(r: Ring<T>, event: T)
    requires r.Valid()
    ensures r.Push(event).Valid()
    ensures var was := r.Contents();
            r.Push(event).Contents() == (if |was| == 1_000 then was[1..] else was) + [event]
    ensures r.Push(event).flushNow <==> r.flushNow || |r.Push(event).Contents()| >= 50
  {
  }

  /** A drain removes exactly the oldest events, leaves the rest in order, and leaves the flag alone. */
  lemma DrainMeaning<T>(r: Ring<T>, n: nat)
    requires r.Valid()
    ensures r.Drain(n).Valid() && r.Drain(n).flushNow == r.flushNow
    ensures var was := r.Contents();
            r.Drain(n).Contents() == was[MinNat(n, |was|)..]
  {
  }

  lemma DrainSelects<T>(r: Ring<T>, n: nat)
    requires r.Valid()
    ensures var was := r.Contents();
            var k := MinNat(n, |was|);
            && Select(r.Drain(n).history, r.Drain(n).fates, Drained) == Select(r.history, r.fates, Drained) + was[..k]
            && Select(r.Drain(n).history, r.Drain(n).fates, Evicted) == Select(r.history, r.fates, Evicted)
  {
    var k := MinNat(n, |r.Contents()|);
    SelectRepeat(r.history, r.fates, k);
    RepeatEvictsNothing(r.history, r.fates, k);
    assert r.Contents()[..k] == r.history[|r.fates|..|r.fates| + k];
  }

  lemma SelectLast<T>(history: seq<T>, fates: seq<Fate>, last: Fate, f: Fate)
    requires |fates| < |history|
    ensures Select(history, fates + [last], f)
            == if last == f then Select(history, fates, f) + [history[|fates|]] else Select(history, fates, f)
  {
    var all := fates + [last];
    assert all[..|all| - 1] == fates;
  }

  lemma RepeatOneMore(fates: seq<Fate>, k: nat)
    requires k > 0
    ensures fates + Repeat(Drained, k) == (fates + Repeat(Drained, k - 1)) + [Drained]
  {
  }

  /** Draining k more events selects them, in order. */
  lemma {:induction false} SelectRepeat<T>(history: seq<T>, fates: seq<Fate>, k: nat)
    requires |fates| + k <= |history|
    ensures Select(history, fates + Repeat(Drained, k), Drained)
            == Select(history, fates, Drained) + history[|fates|..|fates| + k]
  {
    if k == 0 {
      assert fates + Repeat(Drained, 0) == fates;
    } else {
      var most := fates + Repeat(Drained, k - 1);
      RepeatOneMore(fates, k);
      SelectRepeat(history, fates, k - 1);
      SelectLast(history, most, Drained, Drained);
      Slice(Select(history, fates, Drained), history, |fates|, |fates| + k - 1,
            Select(history, most, Drained), Select(history, most + [Drained], Drained));
    }
  }

  /** It evicts nothing. */
  lemma {:induction false} RepeatEvictsNothing<T>(history: seq<T>, fates: seq<Fate>, k: nat)
    requires |fates| + k <= |history|
    ensures Select(history, fates + Repeat(Drained, k), Evicted) == Select(history, fates, Evicted)
  {
    if k == 0 {
      assert fates + Repeat(Drained, 0) == fates;
    } else {
      RepeatOneMore(fates, k);
      RepeatEvictsNothing(history, fates, k - 1);
      SelectLast(history, fates + Repeat(Drained, k - 1), Drained, Evicted);
    }
  }

  lemma Slice<T>(before: seq<T>, s: seq<T>, i: nat, j: nat, part: seq<T>, more: seq<T>)
    requires i <= j < |s| && part == before + s[i..j] && more == part + [s[j]]
    ensures more == before + s[i..j + 1]
  {
  }

  /** Pushing leaves what was selected before alone. */
  lemma {:induction false} SelectExtends<T>(history: seq<T>, fates: seq<Fate>, f: Fate, event: T)
    requires |fates| <= |history|
    ensures Select(history + [event], fates, f) == Select(history, fates, f)
    decreases |fates|
  {
    if fates != [] {
      SelectExtends(history, fates[..|fates| - 1], f, event);
    }
  }

  lemma PushSelects<T>(r: Ring<T>, event: T)
    requires r.Valid()
    ensures var r' := r.Push(event);
            && Select(r'.history, r'.fates, Drained) == Select(r.history, r.fates, Drained)
            && Select(r'.history, r'.fates, Evicted)
               == Select(r.history, r.fates, Evicted) + (if |r.Contents()| == RING_CAP then [r.Contents()[0]] else [])
  {
    SelectExtends(r.history, r.fates, Drained, event);
    SelectExtends(r.history, r.fates, Evicted, event);
    var r' := r.Push(event);
    if |r.Contents()| == RING_CAP {
      assert r'.fates[..|r'.fates| - 1] == r.fates;
    }
  }

  /** What has left the ring splits into drained and evicted, with nothing missing and nothing twice. */
  lemma {:induction false} NoGaps<T>(history: seq<T>, fates: seq<Fate>)
    requires |fates| <= |history|
    ensures multiset(Select(history, fates, Drained)) + multiset(Select(history, fates, Evicted))
            == multiset(history[..|fates|])
    decreases |fates|
  {
    if fates == [] {
      assert history[..0] == [];
    } else {
      var n := |fates| - 1;
      var front := fates[..n];
      assert fates == front + [fates[n]];
      NoGaps(history, front);
      SelectLast(history, front, fates[n], Drained);
      SelectLast(history, front, fates[n], Evicted);
      assert history[..|fates|] == history[..n] + [history[n]];
      CountAppend(Select(history, front, Drained), Select(history, front, Evicted), history[..n], history[n],
                  Select(history, fates, Drained), Select(history, fates, Evicted), history[..|fates|]);
    }
  }

  lemma CountAppend<T>(d: seq<T>, e: seq<T>, h: seq<T>, x: T, d': seq<T>, e': seq<T>, h': seq<T>)
    requires multiset(d) + multiset(e) == multiset(h)
    requires (d' == d + [x] && e' == e) || (d' == d && e' == e + [x])
    requires h' == h + [x]
    ensures multiset(d') + multiset(e') == multiset(h')
  {
  }

  // ------------------------------------------------------------ whole runs

  datatype Op<T> = DoPush(event: T) | DoDrain(n: nat)

  /** The ring after a run of operations from empty, and the concatenation of all drained lists. */
  function RunOps<T>(ops: seq<Op<T>>): (Ring<T>, seq<T>)
    ensures RunOps(ops).0.Valid()
    decreases |ops|
  {
    if ops == [] then (Ring([], [], false), []) else
      var (r, out) := RunOps(ops[..|ops| - 1]);
      match ops[|ops| - 1]
      case DoPush(e) => (r.Push(e), out)
      case DoDrain(n) => (r.Drain(n), out + r.Contents()[..MinNat(n, |r.Contents()|)])
  }

  function Pushes<T>(ops: seq<Op<T>>): seq<T>
    decreases |ops|
  {
    if ops == [] then [] else
      Pushes(ops[..|ops| - 1]) + (match ops[|ops| - 1] case DoPush(e) => [e] case DoDrain(_) => [])
  }

  /** The drained lists, joined, are the events marked drained, in push order. */
  lemma {:induction false} RunOutputs<T>(ops: seq<Op<T>>)
    ensures var (r, out) := RunOps(ops);
            r.history == Pushes(ops) && out == Select(r.history, r.fates, Drained)
    decreases |ops|
  {
    if ops != [] {
      var front := ops[..|ops| - 1];
      RunOutputs(front);
      var r := RunOps(front).0;
      match ops[|ops| - 1] {
        case DoPush(e) => PushSelects(r, e);
        case DoDrain(n) => DrainSelects(r, n);
      }
    }
  }

  /**
   Over any run: the ring is the end of the push history, at most a thousand long; the drained lists,
   joined, are the events marked drained, in push order; the rest of what left was evicted, each
   event only after a thousand younger ones had been pushed; nothing is missing and nothing doubled.
   */
  lemma RingRefinesHistory<T>(ops: seq<Op<T>>)
    ensures var (r, out) := RunOps(ops);
            var history := Pushes(ops);
            && |r.fates| <= |history| && r.Contents() == history[|r.fates|..] && |r.Contents()| <= RING_CAP
            && out == Select(history, r.fates, Drained)
            && multiset(out) + multiset(Select(history, r.fates, Evicted)) + multiset(r.Contents()) == multiset(history)
            && (forall i :: 0 <= i < |r.fates| && r.fates[i].Evicted? ==> i + RING_CAP < |history|)
  {
    RunOutputs(ops);
    var r := RunOps(ops).0;
    NoGaps(r.history, r.fates);
    assert r.history == r.history[..|r.fates|] + r.Contents();
  }
}
