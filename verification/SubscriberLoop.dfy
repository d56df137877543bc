/**
 The subscriber thread as a state machine: connect, read, and reconnect with backoff,
 interleaved at every point with a `stop` coming from another thread.
 */
module SubscriberLoop {
  import opened Revocation

  const FIRST_BACKOFF: real := 0.5
  const MAX_BACKOFF: real := 30.0

  /** Where the thread is. Each constructor names the statement about to be executed. */
  datatype Pc =
    | Importing       // before the loop
    | AtTop           // about to test the stop event
    | Connecting      // about to open the connection and subscribe
    | Subscribed      // subscribed and backoff reset; about to record it
    | Announcing      // about to set the connected flag
    | Reading         // in the read loop, about to test the stop event
    | Receiving       // inside get_message
    | LeavingRead     // left the read loop; about to clear the connected flag
    | Closing         // about to unsubscribe
    | Failing         // an exception was caught; about to clear the connected flag
    | Recording       // about to store the error
    | CheckingStop    // about to test the stop event after a failure
    | Sleeping        // waiting for the backoff
    | Dead            // the thread has ended

  datatype State = State(
    cfg: Config,
    pc: Pc,
    stop: bool,
    connected: bool,
    everConnected: bool,
    hasError: bool,
    backoff: real,
    waits: seq<real>,             // backoffs slept since the last successful subscribe
    received: seq<Message>,
    registry: Registry)

  datatype Action =
    | ImportFails | ImportWorks
    | TestStop
    | ConnectWorks | ConnectFails
    | Record | Announce
    | Read(msg: Message) | ReadNothing | ReadFails
    | ClearConnected | Close
    | StoreError
    | Wake
    // taken by the thread that calls stop()
    | SetStop | StopClears

  function Min(a: real, b: real): real { if a <= b then a else b }

  predicate Enabled(s: State, a: Action) {
    match a
    case ImportFails => s.pc == Importing
    case ImportWorks => s.pc == Importing
    case TestStop => s.pc == AtTop || s.pc == CheckingStop || s.pc == Reading
    case ConnectWorks => s.pc == Connecting
    case ConnectFails => s.pc == Connecting
    case Record => s.pc == Subscribed
    case Announce => s.pc == Announcing
    case Read(_) => s.pc == Receiving
    case ReadNothing => s.pc == Receiving
    case ReadFails => s.pc == Receiving
    case ClearConnected => s.pc == LeavingRead || s.pc == Failing
    case Close => s.pc == Closing
    case StoreError => s.pc == Recording
    case Wake => s.pc == Sleeping
    case SetStop => true
    case StopClears => s.stop
  }

  function Do(s: State, a: Action): State
    requires Enabled(s, a)
  {
    match a
    case ImportFails => s.(pc := Dead)
    case ImportWorks => s.(pc := AtTop)
    case TestStop =>
      if s.pc == AtTop then s.(pc := if s.stop then Dead else Connecting)
      else if s.pc == CheckingStop then s.(pc := if s.stop then Dead else Sleeping)
      else s.(pc := if s.stop then LeavingRead else Receiving)
    case ConnectWorks => s.(pc := Subscribed, backoff := FIRST_BACKOFF, waits := [])
    case ConnectFails => s.(pc := Failing)
    case Record => s.(pc := Announcing, everConnected := true, hasError := false)
    case Announce => s.(pc := Reading, connected := true)
    case Read(m) => s.(pc := Reading, received := s.received + [m], registry := AfterMessage(s.cfg, s.registry, m))
    case ReadNothing => s.(pc := Reading)
    case ReadFails => s.(pc := Failing)
    case ClearConnected => s.(pc := if s.pc == LeavingRead then Closing else Recording, connected := false)
    case Close => s.(pc := AtTop)
    case StoreError => s.(pc := CheckingStop, hasError := true)
    case Wake => s.(pc := AtTop, waits := s.waits + [s.backoff], backoff := Min(s.backoff * 2.0, MAX_BACKOFF))
    case SetStop => s.(stop := true)
    case StopClears => s.(connected := false)
  }

  function Init(cfg: Config): State {
    State(cfg, Importing, false, false, false, false, FIRST_BACKOFF, [], [], EMPTY)
  }

  ghost predicate CanRun(s: State, actions: seq<Action>)
    decreases |actions|
  {
    actions == [] || (Enabled(s, actions[0]) && CanRun(Do(s, actions[0]), actions[1..]))
  }

  ghost function RunActions(s: State, actions: seq<Action>): State
    requires CanRun(s, actions)
    decreases |actions|
  {
    if actions == [] then s else RunActions(Do(s, actions[0]), actions[1..])
  }

  /** The k-th backoff: half a second, doubled k times, capped. */
  ghost function Pow2(k: nat): real {
    if k == 0 then 1.0 else 2.0 * Pow2(k - 1)
  }

  ghost function Backoff(k: nat): real {
    Min(0.5 * Pow2(k), 30.0)
  }

  lemma BackoffDoubles(k: nat)
    ensures Min(Backoff(k) * 2.0, MAX_BACKOFF) == Backoff(k + 1)
  {
    Pow2Positive(k);
  }

  lemma {:induction false} Pow2Positive(k: nat)
    ensures Pow2(k) >= 1.0
  {
    if k > 0 {
      Pow2Positive(k - 1);
    }
  }

  ghost predicate Inv(s: State) {
    && (s.connected ==> s.pc in {Reading, Receiving, LeavingRead, Failing} && s.everConnected)
    && (s.pc in {Announcing, Reading, Receiving, LeavingRead} ==> s.everConnected)
    && s.backoff == Backoff(|s.waits|)
    && (forall i :: 0 <= i < |s.waits| ==> s.waits[i] == Backoff(i))
    && s.registry == Revocation.Run(s.cfg, s.received)
  }

  lemma StepKeepsInv(s: State, a: Action)
    requires Inv(s) && Enabled(s, a)
    ensures Inv(Do(s, a)) && Do(s, a).cfg == s.cfg
  {
    match a
    case Wake => BackoffDoubles(|s.waits|);
    case Read(m) =>
      var msgs := s.received + [m];
      assert msgs[..|msgs| - 1] == s.received;
    case _ =>
  }

  lemma {:induction false} RunKeepsInv(s: State, actions: seq<Action>)
    requires Inv(s) && CanRun(s, actions)
    ensures Inv(RunActions(s, actions)) && RunActions(s, actions).cfg == s.cfg
    decreases |actions|
  {
    if actions != [] {
      StepKeepsInv(s, actions[0]);
      RunKeepsInv(Do(s, actions[0]), actions[1..]);
    }
  }

  /**
   The health signal never lies in the dangerous direction: whenever it is set, the thread
   subscribed and has not yet dealt with a failure or left its read loop.
   A thread that has ended is never reported as connected.
   */
  lemma HealthyMeansListening(cfg: Config, actions: seq<Action>)
    requires CanRun(Init(cfg), actions)
    ensures var s := RunActions(Init(cfg), actions);
            && (s.connected ==> s.everConnected && s.pc in {Reading, Receiving, LeavingRead, Failing})
            && (s.pc == Dead ==> !s.connected)
  {
    RunKeepsInv(Init(cfg), actions);
  }

  /** How many waits the thread has finished since it last subscribed, read off the actions alone. */
  function WaitsSinceSubscribe(before: nat, actions: seq<Action>): nat
    decreases |actions|
  {
    if actions == [] then before
    else
      WaitsSinceSubscribe(
        if actions[0].ConnectWorks? then 0 else if actions[0].Wake? then before + 1 else before, actions[1..])
  }

  lemma {:induction false} RunCountsWaits(s: State, actions: seq<Action>)
    requires CanRun(s, actions)
    ensures |RunActions(s, actions).waits| == WaitsSinceSubscribe(|s.waits|, actions)
    decreases |actions|
  {
    if actions != [] {
      RunCountsWaits(Do(s, actions[0]), actions[1..]);
    }
  }

  /**
   After k failed attempts in a row, the next wait is half a second doubled k times, at most
   30 s, and the k waits before it followed the same rule.
   */
  lemma WaitAfterFailures(cfg: Config, actions: seq<Action>)
    requires CanRun(Init(cfg), actions)
    ensures var s := RunActions(Init(cfg), actions);
            var k := WaitsSinceSubscribe(0, actions);
            && s.backoff == Backoff(k)
            && |s.waits| == k
            && forall i :: 0 <= i < k ==> s.waits[i] == Backoff(i)
  {
    RunKeepsInv(Init(cfg), actions);
    RunCountsWaits(Init(cfg), actions);
  }

  lemma {:induction false} ReceivedFrom(s: State, actions: seq<Action>, m: Message)
    requires CanRun(s, actions)
    ensures m in RunActions(s, actions).received <==> m in s.received || Read(m) in actions
    decreases |actions|
  {
    if actions != [] {
      assert actions == [actions[0]] + actions[1..];
      ReceivedFrom(Do(s, actions[0]), actions[1..], m);
    }
  }

  /**
   Whatever the connection does, the registry of a subscriber with an agent id answers "revoked" exactly
   when a payload that concerns its agent was read at some time.
   */
  lemma RegistryNeverForgets(cfg: Config, actions: seq<Action>, taskId: string)
    requires cfg.cap >= 1 && cfg.agentId != "" && CanRun(Init(cfg), actions)
    ensures RunActions(Init(cfg), actions).registry.IsRevoked(cfg.agentId, taskId)
            <==> exists p :: Read(Parsed(p)) in actions && ConcernsUs(cfg, p)
  {
    var s := RunActions(Init(cfg), actions);
    RunKeepsInv(Init(cfg), actions);
    RevokedExactlyWhen(cfg, s.received, taskId);
    forall p | ConcernsUs(cfg, p) ensures Parsed(p) in s.received <==> Read(Parsed(p)) in actions {
      ReceivedFrom(Init(cfg), actions, Parsed(p));
    }
    if i :| 0 <= i < |s.received| && s.received[i].Parsed? && ConcernsUs(cfg, s.received[i].payload) {
      assert s.received[i] == Parsed(s.received[i].payload) && s.received[i] in s.received;
    }
  }

  // -------------------------------------------------- what the flags say of a run

  /** Some action set the flag, and none after it cleared it. */
  ghost predicate SetLast(actions: seq<Action>, on: Action, off: set<Action>) {
    exists i :: 0 <= i < |actions| && actions[i] == on && forall j :: i < j < |actions| ==> actions[j] !in off
  }

  ghost predicate NoneOf(actions: seq<Action>, off: set<Action>) {
    forall i :: 0 <= i < |actions| ==> actions[i] !in off
  }

  lemma SetLastStep(actions: seq<Action>, on: Action, off: set<Action>)
    requires actions != [] && on !in off
    ensures SetLast(actions, on, off) <==> SetLast(actions[1..], on, off) || (actions[0] == on && NoneOf(actions[1..], off))
    ensures NoneOf(actions, off) <==> actions[0] !in off && NoneOf(actions[1..], off)
  {
    var rest := actions[1..];
    if i :| 0 <= i < |rest| && rest[i] == on && forall j :: i < j < |rest| ==> rest[j] !in off {
      forall j | i + 1 < j < |actions| ensures actions[j] !in off {
        assert actions[j] == rest[j - 1];
      }
      assert actions[i + 1] == on;
    }
    if i :| 0 <= i < |actions| && actions[i] == on && forall j :: i < j < |actions| ==> actions[j] !in off {
      forall j | i <= j < |rest| ensures rest[j] !in off {
        assert rest[j] == actions[j + 1];
      }
      assert i > 0 ==> rest[i - 1] == on;
    }
    if actions[0] == on && NoneOf(rest, off) {
      forall j | 0 < j < |actions| ensures actions[j] !in off {
        assert actions[j] == rest[j - 1];
      }
    }
  }

  lemma {:induction false} FlagsFrom(s: State, actions: seq<Action>)
    requires CanRun(s, actions)
    ensures var t := RunActions(s, actions);
            && (t.connected <==> SetLast(actions, Announce, {ClearConnected, StopClears})
                                 || (s.connected && NoneOf(actions, {ClearConnected, StopClears})))
            && (t.hasError <==> SetLast(actions, StoreError, {Record}) || (s.hasError && NoneOf(actions, {Record})))
    decreases |actions|
  {
    if actions != [] {
      SetLastStep(actions, Announce, {ClearConnected, StopClears});
      SetLastStep(actions, StoreError, {Record});
      FlagsFrom(Do(s, actions[0]), actions[1..]);
    }
  }

  lemma {:induction false} EverFrom(s: State, actions: seq<Action>)
    requires CanRun(s, actions)
    ensures RunActions(s, actions).everConnected <==> s.everConnected || Record in actions
    ensures RunActions(s, actions).stop <==> s.stop || SetStop in actions
    decreases |actions|
  {
    if actions != [] {
      assert actions == [actions[0]] + actions[1..];
      EverFrom(Do(s, actions[0]), actions[1..]);
    }
  }

  /** What a health probe sees, said of the run alone. */
  lemma StatusExactlyWhen(cfg: Config, actions: seq<Action>)
    requires CanRun(Init(cfg), actions)
    ensures var t := RunActions(Init(cfg), actions);
            && (t.connected <==> SetLast(actions, Announce, {ClearConnected, StopClears}))
            && (t.hasError <==> SetLast(actions, StoreError, {Record}))
            && (t.everConnected <==> Record in actions)
            && (t.stop <==> SetStop in actions)
  {
    FlagsFrom(Init(cfg), actions);
    EverFrom(Init(cfg), actions);
  }

  lemma {:induction false} DeadStaysDead(s: State, actions: seq<Action>)
    requires CanRun(s, actions) && s.pc == Dead
    ensures RunActions(s, actions).pc == Dead && ImportFails !in actions
    decreases |actions|
  {
    if actions != [] {
      assert actions == [actions[0]] + actions[1..];
      DeadStaysDead(Do(s, actions[0]), actions[1..]);
    }
  }

  lemma {:induction false} EndsOnlyByStop(s: State, actions: seq<Action>)
    requires CanRun(s, actions) && s.pc != Dead
    ensures RunActions(s, actions).pc == Dead ==> ImportFails in actions || RunActions(s, actions).stop
    ensures ImportFails in actions ==> RunActions(s, actions).pc == Dead
    ensures s.pc != Importing ==> ImportFails !in actions
    decreases |actions|
  {
    if actions != [] {
      assert actions == [actions[0]] + actions[1..];
      var t := Do(s, actions[0]);
      if t.pc == Dead {
        DeadStaysDead(t, actions[1..]);
        EverFrom(t, actions[1..]);
      } else {
        EndsOnlyByStop(t, actions[1..]);
      }
    }
  }

  /** Without the Redis client the thread ends at once and for good; with it, only stop() ends it. */
  lemma ThreadEndsOnlyWhen(cfg: Config, actions: seq<Action>)
    requires CanRun(Init(cfg), actions)
    ensures var t := RunActions(Init(cfg), actions);
            && (ImportFails in actions ==> t.pc == Dead && t.received == [])
            && (t.pc == Dead && ImportFails !in actions ==> SetStop in actions)
  {
    EndsOnlyByStop(Init(cfg), actions);
    EverFrom(Init(cfg), actions);
    if ImportFails in actions {
      FailedImportReadsNothing(Init(cfg), actions);
    }
  }

  lemma {:induction false} FailedImportReadsNothing(s: State, actions: seq<Action>)
    requires CanRun(s, actions) && ((s.pc == Importing && ImportFails in actions) || s.pc == Dead)
    ensures RunActions(s, actions).received == s.received
    decreases |actions|
  {
    if actions != [] {
      assert actions == [actions[0]] + actions[1..];
      var t := Do(s, actions[0]);
      if t.pc == Dead || t.pc == Importing {
        FailedImportReadsNothing(t, actions[1..]);
      } else {
        EndsOnlyByStop(t, actions[1..]);
      }
    }
  }

  /**
   What a failure leads to, of a connection or of a read, while nobody stops the thread: five steps
   later it tries to connect again. In between it has cleared the flag, recorded the error and waited
   once, for the backoff, which then doubles up to 30 s; the registry has not changed.
   */
  lemma FailureBacksOff(s: State, actions: seq<Action>)
    requires s.pc in {Connecting, Receiving} && !s.stop && CanRun(s, actions) && |actions| == 6
    requires actions[0] in {ConnectFails, ReadFails} && forall a :: a in actions ==> OfThread(a)
    ensures var t := RunActions(s, actions);
            && t.pc == Connecting && !t.connected && t.hasError
            && t.waits == s.waits + [s.backoff] && t.backoff == (if s.backoff <= 15.0 then s.backoff * 2.0 else 30.0)
            && t.registry == s.registry && t.received == s.received
  {
    assert actions[0] in actions;
    WayBack(Do(s, actions[0]), actions[1..]);
  }

  /** How far it is from here to the next attempt to connect. */
  function StepsBack(pc: Pc): nat {
    match pc
    case Failing => 5
    case Recording => 4
    case CheckingStop => 3
    case Sleeping => 2
    case AtTop => 1
    case _ => 0
  }

  function Waited(s: State): State {
    s.(waits := s.waits + [s.backoff], backoff := Min(s.backoff * 2.0, MAX_BACKOFF), pc := Connecting)
  }

  lemma {:induction false} WayBack(s: State, actions: seq<Action>)
    requires CanRun(s, actions) && !s.stop && |actions| == StepsBack(s.pc) && (forall a :: a in actions ==> OfThread(a))
    ensures RunActions(s, actions) == match s.pc
                                      case Failing => Waited(s).(connected := false, hasError := true)
                                      case Recording => Waited(s).(hasError := true)
                                      case CheckingStop => Waited(s)
                                      case Sleeping => Waited(s)
                                      case AtTop => s.(pc := Connecting)
                                      case _ => s
    decreases |actions|
  {
    if actions != [] {
      OnlyWayBack(s, actions[0]);
      WayBack(Do(s, actions[0]), actions[1..]);
    }
  }

  lemma OnlyWayBack(s: State, a: Action)
    requires Enabled(s, a) && OfThread(a) && !s.stop && StepsBack(s.pc) > 0
    ensures !Do(s, a).stop && StepsBack(Do(s, a).pc) == StepsBack(s.pc) - 1
    ensures Do(s, a) == match s.pc
                        case Failing => s.(pc := Recording, connected := false)
                        case Recording => s.(pc := CheckingStop, hasError := true)
                        case CheckingStop => s.(pc := Sleeping)
                        case Sleeping => Waited(s).(pc := AtTop)
                        case _ => s.(pc := Connecting)
  {
  }

  /** How many steps the thread can still take once stop is set. */
  function StepsToEnd(pc: Pc): nat {
    match pc
    case Dead => 0
    case AtTop => 1
    case CheckingStop => 1
    case Closing => 2
    case Recording => 2
    case Sleeping => 2
    case Importing => 2
    case LeavingRead => 3
    case Failing => 3
    case Reading => 4
    case Receiving => 5
    case Announcing => 6
    case Subscribed => 7
    case Connecting => 8
  }

  predicate OfThread(a: Action) {
    a != SetStop && a != StopClears
  }

  lemma StoppedStep(s: State, a: Action)
    requires Enabled(s, a) && s.stop && OfThread(a)
    ensures StepsToEnd(Do(s, a).pc) < StepsToEnd(s.pc)
  {
    match a
    case TestStop =>
    case _ =>
  }

  /**
   Once stop is set the thread ends within eight of its own steps, wherever it is and whatever the
   connection does: it handles at most one more message and begins no further wait or connection.
   */
  lemma {:induction false} StopEndsTheThread(s: State, actions: seq<Action>)
    requires CanRun(s, actions) && s.stop
    requires forall a :: a in actions ==> OfThread(a)
    ensures |actions| + StepsToEnd(RunActions(s, actions).pc) <= StepsToEnd(s.pc) <= 8
    ensures |RunActions(s, actions).received| <= |s.received| + 1
    ensures s.pc !in {Receiving, Announcing, Subscribed, Connecting} ==> RunActions(s, actions).received == s.received
    ensures RunActions(s, actions).pc == Connecting ==> actions == []
    ensures RunActions(s, actions).pc == Sleeping ==> actions == []
    decreases |actions|
  {
    if actions != [] {
      StoppedStep(s, actions[0]);
      StopEndsTheThread(Do(s, actions[0]), actions[1..]);
    }
  }

  /** Stop is set, and the thread is past the last point from which it could still announce a connection. */
  lemma {:induction false} PastAnnouncing(s: State, actions: seq<Action>)
    requires CanRun(s, actions) && s.stop && StopClears !in actions
    requires s.pc !in {Connecting, Subscribed, Announcing}
    ensures Announce !in actions
    ensures RunActions(s, actions).connected <==> s.connected && ClearConnected !in actions
    ensures (s.connected ==> s.pc in {Reading, LeavingRead}) ==>
              (RunActions(s, actions).connected ==> RunActions(s, actions).pc in {Reading, LeavingRead})
    decreases |actions|
  {
    if actions != [] {
      assert actions == [actions[0]] + actions[1..];
      PastAnnouncing(Do(s, actions[0]), actions[1..]);
    }
  }

  /**
   A stopped subscriber can still report healthy. stop() waits two seconds for the thread and then
   clears the flag; from then on the flag is set exactly when the thread, still in the middle of
   connecting at that time, has announced its connection and not yet taken that back: it has only to
   test the stop event and leave its read loop.
   */
  lemma {:induction false} HealthyAfterStopExactlyWhen(s: State, actions: seq<Action>)
    requires CanRun(s, actions) && s.stop && !s.connected && StopClears !in actions
    ensures RunActions(s, actions).connected <==> Announce in actions && ClearConnected !in actions
    ensures Announce in actions ==> s.pc in {Connecting, Subscribed, Announcing}
    ensures RunActions(s, actions).connected ==> RunActions(s, actions).pc in {Reading, LeavingRead}
    decreases |actions|
  {
    if actions != [] {
      assert actions == [actions[0]] + actions[1..];
      var t := Do(s, actions[0]);
      if t.pc in {Connecting, Subscribed, Announcing} {
        HealthyAfterStopExactlyWhen(t, actions[1..]);
      } else {
        PastAnnouncing(t, actions[1..]);
      }
    }
  }

  lemma OneStep(s: State, a: Action, rest: seq<Action>)
    requires Enabled(s, a) && CanRun(Do(s, a), rest)
    ensures CanRun(s, [a] + rest) && RunActions(s, [a] + rest) == RunActions(Do(s, a), rest)
  {
    assert ([a] + rest)[1..] == rest;
  }

  /** Going on like this, without another stop() clearing the flag, it reports healthy. */
  ghost predicate EndsHealthy(s: State, actions: seq<Action>) {
    CanRun(s, actions) && StopClears !in actions && RunActions(s, actions).connected
  }

  lemma PrependStep(s: State, a: Action, rest: seq<Action>)
    requires Enabled(s, a) && a != StopClears && EndsHealthy(Do(s, a), rest)
    ensures EndsHealthy(s, [a] + rest)
  {
    OneStep(s, a, rest);
  }

  /** The thread, on its way to announcing a connection, goes on to announce it. */
  lemma GoesOnToAnnounce(s: State) returns (actions: seq<Action>)
    requires s.pc in {Connecting, Subscribed, Announcing}
    ensures EndsHealthy(s, actions)
    decreases StepsToEnd(s.pc)
  {
    if s.pc == Announcing {
      assert EndsHealthy(Do(s, Announce), []);
      PrependStep(s, Announce, []);
      actions := [Announce] + [];
    } else {
      var a := if s.pc == Connecting then ConnectWorks else Record;
      var rest := GoesOnToAnnounce(Do(s, a));
      PrependStep(s, a, rest);
      actions := [a] + rest;
    }
  }

  /**
   Whether a stopped subscriber, its flag cleared, can ever report healthy again: exactly if the
   thread is connecting, or has connected and not yet announced it.
   */
  lemma HealthyAgainExactlyFrom(s: State)
    requires s.stop && !s.connected
    ensures (exists actions :: EndsHealthy(s, actions)) <==> s.pc in {Connecting, Subscribed, Announcing}
  {
    if actions :| EndsHealthy(s, actions) {
      HealthyAfterStopExactlyWhen(s, actions);
    }
    if s.pc in {Connecting, Subscribed, Announcing} {
      var actions := GoesOnToAnnounce(s);
    }
  }

  lemma StopWhileAnnouncing(s: State)
    requires s.pc == Announcing
    ensures var actions := [SetStop] + ([StopClears] + ([Announce] + []));
            CanRun(s, actions) && RunActions(s, actions).stop && RunActions(s, actions).connected
  {
    var s1 := Do(s, SetStop);
    var s2 := Do(s1, StopClears);
    OneStep(s2, Announce, []);
    OneStep(s1, StopClears, [Announce] + []);
    OneStep(s, SetStop, [StopClears] + ([Announce] + []));
  }

  /** A run in which this happens: stop() gives up waiting just before the thread announces itself. */
  lemma HealthyAfterStop(cfg: Config) returns (actions: seq<Action>)
    ensures CanRun(Init(cfg), actions) && RunActions(Init(cfg), actions).stop && RunActions(Init(cfg), actions).connected
  {
    var s1 := Do(Init(cfg), ImportWorks);
    var s2 := Do(s1, TestStop);
    var s3 := Do(s2, ConnectWorks);
    StopWhileAnnouncing(Do(s3, Record));
    actions := [SetStop] + ([StopClears] + ([Announce] + []));
    OneStep(s3, Record, actions);
    OneStep(s2, ConnectWorks, [Record] + actions);
    OneStep(s1, TestStop, [ConnectWorks] + ([Record] + actions));
    actions := [TestStop] + ([ConnectWorks] + ([Record] + actions));
    OneStep(Init(cfg), ImportWorks, actions);
    actions := [ImportWorks] + actions;
  }
}
