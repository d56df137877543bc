/**
 The native-async poller. Only the single status call runs in an executor thread; the idle wait is
 on the event loop, and other tasks run in between at any point. It is modelled as a state machine
 and shown to give what the blocking poller gives in the same world.
 */
module AsyncPoll {
  import opened Wrappers
  import opened ApprovalPoll

  datatype Phase =
    | AtTop                                              // about to hand the status call to the executor
    | InExecutor                                         // a thread is making the call
    | Answered(result: Option<string>, sleepFor: real)   // the future is done, the task not yet resumed
    | Asleep(sleepFor: real)                             // awaiting asyncio.sleep
    | Finished(outcome: string)

  /** `polled` counts the status calls made so far, `slept` adds up the time asked of asyncio.sleep. */
  datatype State = State(phase: Phase, polled: nat, slept: real)

  /** Either this task moves on, or something else has the event loop. */
  datatype Action = Advance | OtherTask

  const START := State(AtTop, 0, 0.0)

  function Do(w: World, timeout: real, interval: real, s: State, a: Action): State {
    if a.OtherTask? then s else
      match s.phase
      case AtTop => s.(phase := InExecutor)
      case InExecutor =>
        var (result, sleepFor) := PollOnce(w.replies(s.polled), w.clock(0) + timeout, w.clock(s.polled + 1), interval);
        State(Answered(result, sleepFor), s.polled + 1, s.slept)
      case Answered(result, sleepFor) => s.(phase := if result.Some? then Finished(result.value) else Asleep(sleepFor))
      case Asleep(sleepFor) => s.(phase := AtTop, slept := s.slept + sleepFor)
      case Finished(_) => s
  }

  function Run(w: World, timeout: real, interval: real, actions: seq<Action>): State
    decreases |actions|
  {
    if actions == [] then START
    else Do(w, timeout, interval, Run(w, timeout, interval, actions[..|actions| - 1]), actions[|actions| - 1])
  }

  ghost predicate Inv(w: World, timeout: real, interval: real, s: State) {
    match s.phase
    case Answered(result, sleepFor) =>
      s.polled >= 1 && Waits(w, timeout, interval, s.polled - 1)
      && Iteration(w, timeout, interval, s.polled - 1) == (result, sleepFor)
      && s.slept == Slept(w, timeout, interval, s.polled - 1)
    case Asleep(sleepFor) =>
      s.polled >= 1 && Waits(w, timeout, interval, s.polled)
      && s.slept + sleepFor == Slept(w, timeout, interval, s.polled)
    case Finished(outcome) =>
      EndsWith(w, timeout, interval, s.polled, outcome) && s.slept == Slept(w, timeout, interval, s.polled - 1)
    case _ => Waits(w, timeout, interval, s.polled) && s.slept == Slept(w, timeout, interval, s.polled)
  }

  lemma StepKeepsInv(w: World, timeout: real, interval: real, s: State, a: Action)
    requires Inv(w, timeout, interval, s)
    ensures Inv(w, timeout, interval, Do(w, timeout, interval, s, a))
  {
  }

  lemma {:induction false} RunKeepsInv(w: World, timeout: real, interval: real, actions: seq<Action>)
    ensures Inv(w, timeout, interval, Run(w, timeout, interval, actions))
    decreases |actions|
  {
    if actions != [] {
      var front := actions[..|actions| - 1];
      RunKeepsInv(w, timeout, interval, front);
      StepKeepsInv(w, timeout, interval, Run(w, timeout, interval, front), actions[|actions| - 1]);
    }
  }

  /**
   Whatever else runs on the event loop, when the async poller returns it returns what the blocking
   poller returns in the same world, after the same number of status calls and the same time asleep.
   */
  lemma AsyncAgreesWithBlocking(w: World, timeout: real, interval: real, actions: seq<Action>, n: nat, outcome: string)
    requires EndsWith(w, timeout, interval, n, outcome)
    requires Run(w, timeout, interval, actions).phase.Finished?
    ensures Run(w, timeout, interval, actions) == State(Finished(outcome), n, Slept(w, timeout, interval, n - 1))
  {
    RunKeepsInv(w, timeout, interval, actions);
    var s := Run(w, timeout, interval, actions);
    OutcomeIsUnique(w, timeout, interval, n, outcome, s.polled, s.phase.outcome);
  }

  function Advances(actions: seq<Action>): nat {
    if actions == [] then 0 else Advances(actions[..|actions| - 1]) + if actions[|actions| - 1].Advance? then 1 else 0
  }

  /** Where in an iteration the task is. */
  function Offset(s: State): int {
    match s.phase
    case AtTop => 0
    case InExecutor => 1
    case Answered(_, _) => -2
    case Asleep(_) => -1
    case Finished(_) => -1
  }

  lemma {:induction false} AdvancesCount(w: World, timeout: real, interval: real, actions: seq<Action>)
    ensures var s := Run(w, timeout, interval, actions);
            if s.phase.Finished? then Advances(actions) >= 4 * s.polled - 1
            else Advances(actions) == 4 * s.polled + Offset(s)
    decreases |actions|
  {
    if actions != [] {
      AdvancesCount(w, timeout, interval, actions[..|actions| - 1]);
    }
  }

  /** The async poller, too, is done after a bounded number of its own moves. */
  lemma AsyncEnds(w: World, timeout: real, interval: real, actions: seq<Action>)
    requires timeout > 0.0 && interval > 0.0 && ClockOk(w, timeout, interval)
    requires Advances(actions) >= 4 * MaxCalls(timeout, interval)
    ensures Run(w, timeout, interval, actions).phase.Finished?
  {
    var s := Run(w, timeout, interval, actions);
    RunKeepsInv(w, timeout, interval, actions);
    AdvancesCount(w, timeout, interval, actions);
    if !s.phase.Finished? {
      var n := if s.phase.Answered? then s.polled - 1 else s.polled;
      WaitsAdvanceClock(w, timeout, interval, n);
    }
  }
}
