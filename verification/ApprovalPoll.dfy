/**
 Waiting for a human approval: a loop of status calls against a monotonic clock, bounded by a
 timeout that the SDK alone controls.

 The outside world is a `World`: the answer to the i-th status call and the successive readings
 of the clock. Nothing is assumed about the answers; `ClockOk` says what any monotonic clock and
 any sleep guarantee.
 */
module ApprovalPoll {
  import opened Wrappers
  import opened Http

  // ------------------------------------------------------------- configuration

  /** A Python float. */
  datatype Number = NaN | NegativeInfinity | PositiveInfinity | Finite(value: real)

  function IsFinite(x: Number): bool { x.Finite? }

  /** Comparison with zero: every comparison with NaN is false. */
  function AtMostZero(x: Number): bool {
    match x
    case NaN => false
    case NegativeInfinity => true
    case PositiveInfinity => false
    case Finite(v) => v <= 0.0
  }

  datatype Settings = Rejected | Accepted(timeout: real, interval: real)

  /** The constructor's validation of the approval timeout and the poll interval. */
  function Validate(timeout: Number, interval: Number): (s: Settings)
    ensures s.Accepted? ==> s.timeout > 0.0 && s.interval > 0.0
    ensures s.Rejected? <==> !(exists t, i :: t > 0.0 && i > 0.0 && timeout == Finite(t) && interval == Finite(i))
  {
    if !IsFinite(timeout) || AtMostZero(timeout) then Rejected
    else if !IsFinite(interval) || AtMostZero(interval) then Rejected
    else Accepted(timeout.value, interval.value)
  }

  // ------------------------------------------------------------------ the loop

  /** Statuses that end the wait; anything else means keep polling. */
  predicate Terminal(status: string) {
    status == "approved" || status == "rejected" || status == "expired"
  }

  /** The client's approval_status: an empty status is an error, not a pending approval. */
  function ApprovalStatus(reply: Reply<string>): Result<string> {
    match Expect(reply, 200)
    case Returned(status) => if status == "" then ApiError(200) else Returned(status)
    case TransportError => TransportError
    case ApiError(code) => ApiError(code)
  }

  /**
   `replies(i)` answers the i-th status call. `clock(0)` is the reading that fixes the deadline,
   `clock(i + 1)` the reading made in iteration i.
   */
  datatype World = World(replies: nat -> Reply<string>, clock: nat -> real)

  function Min(a: real, b: real): real { if a <= b then a else b }

  /** One iteration, with no sleeping: a result, or how long to sleep before the next one. */
  function PollOnce(reply: Reply<string>, deadline: real, now: real, interval: real): (Option<string>, real) {
    match ApprovalStatus(reply)
    case TransportError => (Some("unavailable"), 0.0)
    case ApiError(_) => (Some("unavailable"), 0.0)
    case Returned(status) =>
      if Terminal(status) then (Some(status), 0.0)
      else
        var remaining := deadline - now;
        if remaining <= 0.0 then (Some("timeout"), 0.0) else (None, Min(interval, remaining))
  }

  function Iteration(w: World, timeout: real, interval: real, i: nat): (Option<string>, real) {
    PollOnce(w.replies(i), w.clock(0) + timeout, w.clock(i + 1), interval)
  }

  /** The clock never runs backwards, and sleeping takes at least as long as asked. */
  ghost predicate ClockOk(w: World, timeout: real, interval: real) {
    && w.clock(0) <= w.clock(1)
    && forall i: nat :: w.clock(i + 1) + Iteration(w, timeout, interval, i).1 <= w.clock(i + 2)
  }

  /** The poll ends in its n-th iteration with the given outcome: all earlier iterations went on waiting. */
  ghost predicate EndsWith(w: World, timeout: real, interval: real, n: nat, outcome: string) {
    && n >= 1
    && (forall i: nat :: i < n - 1 ==> Iteration(w, timeout, interval, i).0 == None)
    && Iteration(w, timeout, interval, n - 1).0 == Some(outcome)
  }

  /** The least integer not below x. */
  function Ceil(x: real): int {
    -(-x).Floor
  }

  function MaxCalls(timeout: real, interval: real): int
    requires interval > 0.0
  {
    Ceil(timeout / interval) + 1
  }

  /** i times x, by repeated addition. */
  function Times(i: nat, x: real): real {
    if i == 0 then 0.0 else Times(i - 1, x) + x
  }

  lemma {:induction false} TimesIsProduct(i: nat, x: real)
    ensures Times(i, x) == i as real * x
  {
    if i > 0 {
      TimesIsProduct(i - 1, x);
      assert (i - 1) as real * x + x == i as real * x;
    }
  }

  lemma ProductOrder(a: real, b: real, x: real)
    requires x > 0.0
    ensures a < b <==> a * x < b * x
  {
    assert (b - a) * x == b * x - a * x;
  }

  lemma QuotientTimesDivisor(a: real, x: real)
    requires x > 0.0
    ensures (a / x) * x == a
  {
  }

  lemma CeilOrder(i: int, x: real)
    ensures i as real < x <==> i < Ceil(x)
  {
  }

  /** i intervals fit strictly before the timeout exactly when i is below the bound. */
  lemma BelowCeil(i: nat, timeout: real, interval: real)
    requires interval > 0.0
    ensures Times(i, interval) < timeout <==> i < Ceil(timeout / interval)
  {
    TimesIsProduct(i, interval);
    QuotientTimesDivisor(timeout, interval);
    ProductOrder(i as real, timeout / interval, interval);
    CeilOrder(i, timeout / interval);
  }

  /** The first n iterations all end in a sleep. */
  ghost predicate Waits(w: World, timeout: real, interval: real, n: nat) {
    forall i: nat :: i < n ==> Iteration(w, timeout, interval, i).0 == None
  }

  /** The time slept in the first n iterations. */
  function Slept(w: World, timeout: real, interval: real, n: nat): real {
    if n == 0 then 0.0 else Slept(w, timeout, interval, n - 1) + Iteration(w, timeout, interval, n - 1).1
  }

  /** A single sleep is at most one interval and ends no later than the deadline. */
  lemma OneSleep(w: World, timeout: real, interval: real, i: nat)
    requires interval > 0.0 && Iteration(w, timeout, interval, i).0 == None
    ensures var sleep := Iteration(w, timeout, interval, i).1;
            var remaining := w.clock(0) + timeout - w.clock(i + 1);
            0.0 < sleep == Min(interval, remaining) && remaining > 0.0
  {
  }

  /** After n waits the clock has advanced by n intervals or to the deadline, and the sleeps fit in between. */
  lemma {:induction false} WaitsAdvanceClock(w: World, timeout: real, interval: real, n: nat)
    requires timeout > 0.0 && interval > 0.0 && ClockOk(w, timeout, interval)
    requires Waits(w, timeout, interval, n)
    ensures n <= Ceil(timeout / interval)
    ensures w.clock(n + 1) >= Min(w.clock(0) + Times(n, interval), w.clock(0) + timeout)
    ensures w.clock(0) + Slept(w, timeout, interval, n) <= Min(w.clock(n + 1), w.clock(0) + timeout)
  {
    if n == 0 {
      BelowCeil(0, timeout, interval);
    } else {
      WaitsAdvanceClock(w, timeout, interval, n - 1);
      OneSleep(w, timeout, interval, n - 1);
      assert w.clock(n) + Iteration(w, timeout, interval, n - 1).1 <= w.clock(n + 1);
      BelowCeil(n - 1, timeout, interval);
    }
  }

  /**
   The blocking poll. It stops after at most ceil(timeout / interval) + 1 status calls whatever the
   server says, never sleeps past the deadline, and sleeps no longer than the timeout in all.
   */
  method PollApproval(w: World, timeout: real, interval: real)
    returns (outcome: string, calls: nat, sleeps: seq<real>)
    requires timeout > 0.0 && interval > 0.0 && ClockOk(w, timeout, interval)
    ensures EndsWith(w, timeout, interval, calls, outcome)
    ensures calls <= MaxCalls(timeout, interval)
    ensures |sleeps| == calls - 1 && Slept(w, timeout, interval, |sleeps|) <= timeout
    ensures forall i :: 0 <= i < |sleeps| ==>
              && sleeps[i] == Iteration(w, timeout, interval, i).1
              && 0.0 < sleeps[i] <= interval && w.clock(i + 1) + sleeps[i] <= w.clock(0) + timeout
  {
    var deadline := w.clock(0) + timeout;
    calls, sleeps := 0, [];
    WaitsAdvanceClock(w, timeout, interval, 0);
    while true
      invariant |sleeps| == calls <= Ceil(timeout / interval) && Waits(w, timeout, interval, calls)
      invariant forall i :: 0 <= i < |sleeps| ==>
                  && sleeps[i] == Iteration(w, timeout, interval, i).1
                  && 0.0 < sleeps[i] <= interval && w.clock(i + 1) + sleeps[i] <= deadline
      decreases Ceil(timeout / interval) - calls
    {
      var (result, sleepFor) := PollOnce(w.replies(calls), deadline, w.clock(calls + 1), interval);
      assert Iteration(w, timeout, interval, calls) == (result, sleepFor);
      if result.Some? {
        WaitsAdvanceClock(w, timeout, interval, calls);
        outcome, calls := result.value, calls + 1;
        return;
      }
      OneSleep(w, timeout, interval, calls);
      calls, sleeps := calls + 1, sleeps + [sleepFor];
      WaitsAdvanceClock(w, timeout, interval, calls);
    }
  }

  // --------------------------------------------------------------- its meaning

  /** Outcome and number of calls are determined by the world: any two pollers that keep the rules agree. */
  lemma OutcomeIsUnique(w: World, timeout: real, interval: real, n: nat, a: string, m: nat, b: string)
    requires EndsWith(w, timeout, interval, n, a) && EndsWith(w, timeout, interval, m, b)
    ensures n == m && a == b
  {
  }

  /** "approved" is returned only because the server answered a status call with exactly that, in time to be read. */
  lemma ApprovedMeansApproved(w: World, timeout: real, interval: real, n: nat, outcome: string)
    requires EndsWith(w, timeout, interval, n, outcome)
    ensures outcome == "approved" <==> w.replies(n - 1) == Response(200, Some("approved"))
    ensures outcome in {"approved", "rejected", "expired", "timeout", "unavailable"}
    ensures outcome == "timeout" ==> w.clock(n) >= w.clock(0) + timeout
  {
    assert Iteration(w, timeout, interval, n - 1).0 == Some(outcome);
  }

  /** The server has answered, and has not decided yet. */
  predicate Undecided(reply: Reply<string>) {
    reply.Response? && reply.code == 200 && reply.body.Some?
    && reply.body.value !in {"", "approved", "rejected", "expired"}
  }

  /** The answer that ends a poll with this outcome, if the deadline has passed or has not. */
  predicate Decides(reply: Reply<string>, late: bool, outcome: string) {
    || (outcome in {"approved", "rejected", "expired"} && reply == Response(200, Some(outcome)))
    || (outcome == "timeout" && Undecided(reply) && late)
    || (outcome == "unavailable" && !Undecided(reply) && reply !in {Response(200, Some("approved")),
                                                                    Response(200, Some("rejected")),
                                                                    Response(200, Some("expired"))})
  }

  /** The i-th answer does not end the wait. */
  predicate GoesOn(w: World, timeout: real, i: nat) {
    Undecided(w.replies(i)) && w.clock(i + 1) < w.clock(0) + timeout
  }

  lemma IterationMeaning(w: World, timeout: real, interval: real, i: nat)
    ensures var late := w.clock(i + 1) >= w.clock(0) + timeout;
            && (Iteration(w, timeout, interval, i).0 == None <==> GoesOn(w, timeout, i))
            && forall outcome :: Iteration(w, timeout, interval, i).0 == Some(outcome) <==> Decides(w.replies(i), late, outcome)
  {
  }

  /**
   How a wait ends, said of the server's answers and the clock alone: each answer before the last was
   undecided and came before the deadline; the last is the decision that is returned, or is undecided
   with the deadline passed, or is no answer at all: no reply, a bad status code, an empty status.
   */
  lemma EndsExactlyWhen(w: World, timeout: real, interval: real, n: nat, outcome: string)
    ensures EndsWith(w, timeout, interval, n, outcome) <==>
              && n >= 1
              && (forall i: nat :: i < n - 1 ==> GoesOn(w, timeout, i))
              && Decides(w.replies(n - 1), w.clock(n) >= w.clock(0) + timeout, outcome)
  {
    forall i: nat ensures Iteration(w, timeout, interval, i).0 == None <==> GoesOn(w, timeout, i) {
      IterationMeaning(w, timeout, interval, i);
    }
    if n >= 1 {
      IterationMeaning(w, timeout, interval, n - 1);
    }
  }

  /** In every world with a legal clock the poll has an outcome. */
  lemma PollEnds(w: World, timeout: real, interval: real) returns (n: nat, outcome: string)
    requires timeout > 0.0 && interval > 0.0 && ClockOk(w, timeout, interval)
    ensures EndsWith(w, timeout, interval, n, outcome) && n <= MaxCalls(timeout, interval)
  {
    n := 0;
    WaitsAdvanceClock(w, timeout, interval, 0);
    while Iteration(w, timeout, interval, n).0 == None
      invariant Waits(w, timeout, interval, n) && n <= Ceil(timeout / interval)
      decreases Ceil(timeout / interval) - n
    {
      n := n + 1;
      WaitsAdvanceClock(w, timeout, interval, n);
    }
    outcome := Iteration(w, timeout, interval, n).0.value;
    n := n + 1;
  }

  /** The outcome of the poll in a world. */
  ghost function Outcome(w: World, timeout: real, interval: real): (outcome: string)
    requires timeout > 0.0 && interval > 0.0 && ClockOk(w, timeout, interval)
    ensures exists n :: EndsWith(w, timeout, interval, n, outcome)
  {
    assert exists n, o :: EndsWith(w, timeout, interval, n, o) by {
      var n, o := PollEnds(w, timeout, interval);
    }
    var n, o :| EndsWith(w, timeout, interval, n, o);
    o
  }

  lemma OutcomeIs(w: World, timeout: real, interval: real, n: nat, outcome: string)
    requires timeout > 0.0 && interval > 0.0 && ClockOk(w, timeout, interval)
    requires EndsWith(w, timeout, interval, n, outcome)
    ensures Outcome(w, timeout, interval) == outcome
  {
    var m :| EndsWith(w, timeout, interval, m, Outcome(w, timeout, interval));
    OutcomeIsUnique(w, timeout, interval, n, outcome, m, Outcome(w, timeout, interval));
  }

  // ------------------------------------------------------ the bound is exact

  function Pending(): nat -> Reply<string> {
    i => Response(200, Some("pending"))
  }

  /** A perfect clock: status calls take no time, sleeps exactly as long as asked. */
  ghost function PerfectWorld(timeout: real, interval: real): World {
    World(Pending(), (i: nat) => if i == 0 then 0.0 else Min(Times(i - 1, interval), timeout))
  }

  lemma PerfectClockOk(timeout: real, interval: real)
    requires timeout > 0.0 && interval > 0.0
    ensures ClockOk(PerfectWorld(timeout, interval), timeout, interval)
  {
    var w := PerfectWorld(timeout, interval);
    forall i: nat
      ensures w.clock(i + 1) + Iteration(w, timeout, interval, i).1 <= w.clock(i + 2)
    {
      assert w.clock(i + 2) == Min(Times(i, interval) + interval, timeout);
    }
  }

  lemma PerfectWaits(timeout: real, interval: real, i: nat)
    requires timeout > 0.0 && interval > 0.0
    ensures var waits := Iteration(PerfectWorld(timeout, interval), timeout, interval, i).0;
            waits == if i < Ceil(timeout / interval) then None else Some("timeout")
  {
    BelowCeil(i, timeout, interval);
    assert PerfectWorld(timeout, interval).clock(i + 1) == Min(Times(i, interval), timeout);
  }

  /** Against a perfect clock and a server that never decides, the bound is met with equality. */
  lemma BoundIsAttained(timeout: real, interval: real)
    requires timeout > 0.0 && interval > 0.0
    ensures var w := PerfectWorld(timeout, interval);
            && ClockOk(w, timeout, interval)
            && MaxCalls(timeout, interval) >= 1
            && EndsWith(w, timeout, interval, MaxCalls(timeout, interval), "timeout")
  {
    var w := PerfectWorld(timeout, interval);
    PerfectClockOk(timeout, interval);
    BelowCeil(0, timeout, interval);
    forall i: nat | i < Ceil(timeout / interval)
      ensures Iteration(w, timeout, interval, i).0 == None
    {
      PerfectWaits(timeout, interval, i);
    }
    PerfectWaits(timeout, interval, Ceil(timeout / interval));
  }

  /** With a zero interval, which the constructor refuses, a legal clock may keep the poll waiting for ever. */
  lemma ZeroIntervalNeverEnds(timeout: real, n: nat, outcome: string)
    requires timeout > 0.0
    ensures var w := World(Pending(), (i: nat) => 0.0);
            ClockOk(w, timeout, 0.0) && !EndsWith(w, timeout, 0.0, n, outcome)
  {
    var w := World(Pending(), (i: nat) => 0.0);
    assert forall i: nat :: Iteration(w, timeout, 0.0, i) == (None, 0.0);
  }
}
