/**
 Any number of governed calls of one process, blocking or async, interleaved with each other, with the
 kill-switch subscriber and with a server that grants each approval id at most once.

 A call moves from one access of shared state or network to the next. The environment may answer
 anything, late or never; only a reply that carries a grant must have come from the server.
 */
module Calls {
  import opened Wrappers
  import opened Http
  import opened Governance
  import opened Permission
  import ApprovalPoll
  import AsyncPoll
  import Revocation
  import Verify

  /** Where a call is: the next thing it will do. */
  datatype Pc =
    | AtStart | AtGate | AtVerify | AtPreflight
    | Polling(id: string, poll: AsyncPoll.State)
    | AtRedeem(id: string)
    | Redeeming(id: string)      // the request is out
    | Answered(id: string)       // the answer, or its absence, is in the call's world
    | AtTool(failOpen: bool, grant: Option<string>)
    | AtAudit(failOpen: bool, grant: Option<string>)   // the tool has run
    | Done(outcome: Outcome)

  /** `w` is what the call meets: fixed in advance, except for what it reads from the shared state. */
  datatype CallState = CallState(task: Option<Task>, call: Call, w: World, pc: Pc)

  datatype Entry = Entry(owner: nat, record: Record)

  /** A grant issued by the server; no owner if another process asked for it. */
  datatype Grant = Grant(owner: Option<nat>, revocationId: string)

  /**
   `requests` are redemptions on their way to the server, `replies` what it answered, by call;
   `grants` is the server's ledger, by approval id.
   */
  datatype State = State(
    ks: KillSwitch, calls: seq<CallState>, audit: seq<Entry>,
    requests: map<nat, string>, replies: map<nat, Reply<string>>, grants: map<string, Grant>)

  datatype Action =
    | Message(m: Revocation.Message)                        // the subscriber receives
    | Link(up: bool)                                        // the subscriber connects or disconnects
    | Elsewhere(id: string, rid: string)                    // another process redeems an approval
    | Serve(i: nat, refusal: Option<nat>, rid: string)      // the server handles the request of call i
    | Hear(i: nat, reply: Reply<string>)                  // call i gets an answer, or gives up waiting
    | Move(i: nat)                                          // call i takes its next step

  function RevocationConfig(cfg: Config): Revocation.Config {
    Revocation.Config(cfg.tenantId, cfg.agentId, Revocation.REVOKED_MAX)
  }

  predicate Enabled(s: State, a: Action) {
    match a
    case Serve(i, refusal, _) => i in s.requests && refusal != Some(200)
    case Hear(i, reply) =>
      && i < |s.calls| && s.calls[i].pc.Redeeming?
      && (CarriesGrant(reply) ==> i in s.replies && s.replies[i] == reply)
    case Move(i) => i < |s.calls| && !s.calls[i].pc.Done? && !s.calls[i].pc.Redeeming?
    case _ => true
  }

  // ------------------------------------------------------- one step of a call

  function Finish(c: CallState, ending: Ending): (CallState, Option<Record>) {
    (c.(pc := Done(ending.outcome)), ending.record)
  }

  function Onward(c: CallState, pc: Pc): (CallState, Option<Record>) {
    (c.(pc := pc), None)
  }

  function StartBy(cfg: Config, ks: KillSwitch, c: CallState): (CallState, Option<Record>) {
    if c.task.None? then Finish(c, Ending(Denied("no_task", false), None)) else
      var c' := c.(w := c.w.(atRevocation := ks));
      if Revoked(ks, cfg.agentId, c.task.value.taskId) then Finish(c', Refuse(cfg, c.task.value, c.call, "agent_revoked", Buffer))
      else Onward(c', AtGate)
  }

  function GateBy(cfg: Config, ks: KillSwitch, c: CallState): (CallState, Option<Record>)
    requires c.task.Some?
  {
    var c' := c.(w := c.w.(atGate := ks));
    if cfg.killSwitchMode.Closed? && !Healthy(ks) then
      Finish(c', Refuse(cfg, c.task.value, c.call, "kill_switch_degraded", Buffer))
    else Onward(c', AtVerify)
  }

  ghost function VerifyBy(cfg: Config, lib: Verify.Lib, c: CallState): (CallState, Option<Record>)
    requires c.task.Some?
  {
    var task := c.task.value;
    if task.token.None? then Finish(c, Refuse(cfg, task, c.call, "token_invalid", Nowhere))
    else if TokenRaises(cfg, lib, task, c.call, c.w) then Finish(c, Ending(Escaped, None))
    else if !TokenAccepted(cfg, lib, task, c.call, c.w) then
      var reason := Verify.DenialOf(lib, RequestOf(cfg, c.call, c.w.now), task.token.value);
      Finish(c, Refuse(cfg, task, c.call, ReasonText(reason), Buffer))
    else Onward(c, AtPreflight)
  }

  ghost function PreflightBy(cfg: Config, c: CallState): (CallState, Option<Record>)
    requires c.task.Some?
  {
    match FromPreflight(cfg, c.call, c.w)
    case Refused(reason, sink) => Finish(c, Refuse(cfg, c.task.value, c.call, reason, sink))
    case Crashed => Finish(c, Ending(Escaped, None))
    case Proceed(failOpen) => Onward(c, AtTool(failOpen, None))
    case NeedsApproval(id) => Onward(c, Polling(id, AsyncPoll.START))
  }

  function PollBy(cfg: Config, c: CallState): (CallState, Option<Record>)
    requires c.task.Some? && c.pc.Polling?
  {
    match c.pc.poll.phase
    case Finished(outcome) =>
      if outcome == "approved" then Onward(c, AtRedeem(c.pc.id))
      else Finish(c, Refuse(cfg, c.task.value, c.call, ApprovalReason(outcome), Buffer))
    case _ =>
      Onward(c, Polling(c.pc.id, AsyncPoll.Do(c.w.approval, cfg.timeout, cfg.interval, c.pc.poll, AsyncPoll.Advance)))
  }

  function RedeemedBy(cfg: Config, c: CallState): (CallState, Option<Record>)
    requires c.task.Some?
  {
    match RedeemApproval(c.w.redeem)
    case Returned(id) => Onward(c, AtTool(false, Some(id)))
    case failure => Finish(c, Refuse(cfg, c.task.value, c.call, RedeemReason(failure), Buffer))
  }

  /** The next step of a call, and the record it leaves if that ends the call. */
  ghost function StepBy(cfg: Config, lib: Verify.Lib, ks: KillSwitch, c: CallState): (CallState, Option<Record>)
    requires c.pc.AtStart? || c.task.Some?
  {
    match c.pc
    case AtStart => StartBy(cfg, ks, c)
    case AtGate => GateBy(cfg, ks, c)
    case AtVerify => VerifyBy(cfg, lib, c)
    case AtPreflight => PreflightBy(cfg, c)
    case Polling(_, _) => PollBy(cfg, c)
    case AtRedeem(id) => Onward(c, Redeeming(id))
    case Answered(_) => RedeemedBy(cfg, c)
    case AtTool(failOpen, grant) => Onward(c, AtAudit(failOpen, grant))
    case AtAudit(failOpen, grant) => Finish(c, Execute(cfg, c.task.value, c.call, c.w, failOpen, grant))
    case _ => (c, None)
  }

  // ------------------------------------------------------ one step of the system

  function Entered(audit: seq<Entry>, owner: nat, record: Option<Record>): seq<Entry> {
    match record case Some(r) => audit + [Entry(owner, r)] case None => audit
  }

  /** A call has a task once it is past its start. */
  predicate HasTask(c: CallState) { c.pc.AtStart? || c.pc.Done? || c.task.Some? }

  predicate WellFormed(s: State) {
    forall i :: 0 <= i < |s.calls| ==> HasTask(s.calls[i])
  }

  function Moved(s: State, i: nat, step: (CallState, Option<Record>)): State
    requires i < |s.calls|
  {
    var s' := s.(calls := s.calls[i := step.0], audit := Entered(s.audit, i, step.1));
    if s.calls[i].pc.AtRedeem? then s'.(requests := s.requests[i := s.calls[i].pc.id]) else s'
  }

  ghost function MoveBy(cfg: Config, lib: Verify.Lib, s: State, i: nat): State
    requires WellFormed(s) && Enabled(s, Move(i))
  {
    Moved(s, i, StepBy(cfg, lib, s.ks, s.calls[i]))
  }

  function ServeBy(s: State, i: nat, refusal: Option<nat>, rid: string): State
    requires Enabled(s, Serve(i, refusal, rid))
  {
    var id := s.requests[i];
    var s' := s.(requests := s.requests - {i});
    if refusal.Some? then s'.(replies := s.replies[i := Response(refusal.value, None)])
    else if id in s.grants then s'.(replies := s.replies[i := Response(409, None)])
    else s'.(replies := s.replies[i := Response(200, Some(rid))], grants := s.grants[id := Grant(Some(i), rid)])
  }

  function AnswerBy(s: State, i: nat, reply: Reply<string>): State
    requires Enabled(s, Hear(i, reply))
  {
    var c := s.calls[i];
    s.(calls := s.calls[i := c.(w := c.w.(redeem := reply), pc := Answered(c.pc.id))])
  }

  function SwitchBy(cfg: Config, ks: KillSwitch, a: Action): KillSwitch {
    match (ks, a)
    case (Subscribed(registry, up), Message(m)) =>
      Subscribed(Revocation.AfterMessage(RevocationConfig(cfg), registry, m), up)
    case (Subscribed(registry, _), Link(up)) => Subscribed(registry, up)
    case _ => ks
  }

  ghost function Do(cfg: Config, lib: Verify.Lib, s: State, a: Action): State
    requires WellFormed(s) && Enabled(s, a)
  {
    match a
    case Elsewhere(id, rid) => if id in s.grants then s else s.(grants := s.grants[id := Grant(None, rid)])
    case Serve(i, refusal, rid) => ServeBy(s, i, refusal, rid)
    case Hear(i, reply) => AnswerBy(s, i, reply)
    case Move(i) => MoveBy(cfg, lib, s, i)
    case _ => s.(ks := SwitchBy(cfg, s.ks, a))
  }

  lemma DoWellFormed(cfg: Config, lib: Verify.Lib, s: State, a: Action)
    requires WellFormed(s) && Enabled(s, a)
    ensures WellFormed(Do(cfg, lib, s, a)) && |Do(cfg, lib, s, a).calls| == |s.calls|
  {
  }

  ghost predicate CanRun(cfg: Config, lib: Verify.Lib, s: State, actions: seq<Action>)
    requires WellFormed(s)
    decreases |actions|, 0
  {
    actions == [] ||
    (&& CanRun(cfg, lib, s, actions[..|actions| - 1])
     && Enabled(Run(cfg, lib, s, actions[..|actions| - 1]), actions[|actions| - 1]))
  }

  ghost function Run(cfg: Config, lib: Verify.Lib, s: State, actions: seq<Action>): (t: State)
    requires WellFormed(s) && CanRun(cfg, lib, s, actions)
    ensures WellFormed(t)
    decreases |actions|, 1
  {
    if actions == [] then s else
      var before := Run(cfg, lib, s, actions[..|actions| - 1]);
      DoWellFormed(cfg, lib, before, actions[|actions| - 1]);
      Do(cfg, lib, before, actions[|actions| - 1])
  }

  /** Calls that have not begun, an empty registry, no redemption by this process yet. */
  ghost predicate Init(cfg: Config, s: State) {
    && (s.ks.Subscribed? ==> s.ks.registry == Revocation.EMPTY)
    && (forall i :: 0 <= i < |s.calls| ==> s.calls[i].pc == AtStart && WorldOk(cfg, s.calls[i].w))
    && s.audit == [] && s.requests == map[] && s.replies == map[]
    && (forall id :: id in s.grants ==> s.grants[id].owner == None)
  }

  // -------------------------------------------- each call ends as if it were alone

  /** How the call would end in the world it has met, were it alone. */
  ghost function Alone(cfg: Config, lib: Verify.Lib, c: CallState): Ending
    requires WorldOk(cfg, c.w)
  {
    Decide(cfg, lib, c.task, c.call, c.w)
  }

  ghost function CheckOf(cfg: Config, lib: Verify.Lib, c: CallState): Checked
    requires c.task.Some?
  {
    Check(cfg, lib, c.task.value, c.call, c.w)
  }

  ghost predicate ReadyToRedeem(cfg: Config, lib: Verify.Lib, c: CallState, id: string) {
    && c.task.Some? && WorldOk(cfg, c.w) && CheckOf(cfg, lib, c) == NeedsApproval(id)
    && ApprovalPoll.Outcome(c.w.approval, cfg.timeout, cfg.interval) == "approved"
  }

  ghost predicate ReadyToRun(cfg: Config, lib: Verify.Lib, c: CallState, failOpen: bool, grant: Option<string>) {
    c.task.Some? && WorldOk(cfg, c.w) && Alone(cfg, lib, c) == Execute(cfg, c.task.value, c.call, c.w, failOpen, grant)
  }

  /** What each point of a call knows about the world so far. */
  ghost predicate Good(cfg: Config, lib: Verify.Lib, c: CallState) {
    && WorldOk(cfg, c.w) && HasTask(c)
    && match c.pc
       case AtStart => true
       case AtGate => !Revoked(c.w.atRevocation, cfg.agentId, c.task.value.taskId)
       case AtVerify => CheckOf(cfg, lib, c) == FromVerify(cfg, lib, c.task.value, c.call, c.w)
       case AtPreflight => CheckOf(cfg, lib, c) == FromPreflight(cfg, c.call, c.w)
       case Polling(id, poll) =>
         CheckOf(cfg, lib, c) == NeedsApproval(id) && AsyncPoll.Inv(c.w.approval, cfg.timeout, cfg.interval, poll)
       case AtRedeem(id) => ReadyToRedeem(cfg, lib, c, id)
       case Redeeming(id) => ReadyToRedeem(cfg, lib, c, id)
       case Answered(id) => ReadyToRedeem(cfg, lib, c, id)
       case AtTool(failOpen, grant) => ReadyToRun(cfg, lib, c, failOpen, grant)
       case AtAudit(failOpen, grant) => ReadyToRun(cfg, lib, c, failOpen, grant)
       case Done(outcome) => outcome == Alone(cfg, lib, c).outcome
  }

  /** A step keeps that knowledge, and leaves a record exactly when it ends the call. */
  ghost predicate Kept(cfg: Config, lib: Verify.Lib, step: (CallState, Option<Record>)) {
    && Good(cfg, lib, step.0)
    && step.1 == if step.0.pc.Done? then Alone(cfg, lib, step.0).record else None
  }

  lemma StartKeeps(cfg: Config, lib: Verify.Lib, ks: KillSwitch, c: CallState)
    requires Good(cfg, lib, c) && c.pc.AtStart?
    ensures Kept(cfg, lib, StartBy(cfg, ks, c))
  {
  }

  lemma GateKeeps(cfg: Config, lib: Verify.Lib, ks: KillSwitch, c: CallState)
    requires Good(cfg, lib, c) && c.pc.AtGate?
    ensures Kept(cfg, lib, GateBy(cfg, ks, c))
  {
  }

  lemma VerifyKeeps(cfg: Config, lib: Verify.Lib, c: CallState)
    requires Good(cfg, lib, c) && c.pc.AtVerify?
    ensures Kept(cfg, lib, VerifyBy(cfg, lib, c))
  {
  }

  lemma PreflightKeeps(cfg: Config, lib: Verify.Lib, c: CallState)
    requires Good(cfg, lib, c) && c.pc.AtPreflight?
    ensures Kept(cfg, lib, PreflightBy(cfg, c))
  {
  }

  /** Only the poll has moved on. */
  lemma SamePoll(cfg: Config, lib: Verify.Lib, c: CallState, c': CallState)
    requires Good(cfg, lib, c) && c.pc.Polling? && c'.pc.Polling?
    requires c' == c.(pc := c'.pc) && c'.pc.id == c.pc.id
    requires AsyncPoll.Inv(c.w.approval, cfg.timeout, cfg.interval, c'.pc.poll)
    ensures Good(cfg, lib, c')
  {
  }

  lemma PollKeeps(cfg: Config, lib: Verify.Lib, c: CallState)
    requires Good(cfg, lib, c) && c.pc.Polling?
    ensures Kept(cfg, lib, PollBy(cfg, c))
  {
    var poll := c.pc.poll;
    if poll.phase.Finished? {
      ApprovalPoll.OutcomeIs(c.w.approval, cfg.timeout, cfg.interval, poll.polled, poll.phase.outcome);
    } else {
      AsyncPoll.StepKeepsInv(c.w.approval, cfg.timeout, cfg.interval, poll, AsyncPoll.Advance);
      SamePoll(cfg, lib, c, PollBy(cfg, c).0);
    }
  }

  lemma RedeemedKeeps(cfg: Config, lib: Verify.Lib, c: CallState)
    requires Good(cfg, lib, c) && c.pc.Answered?
    ensures Kept(cfg, lib, RedeemedBy(cfg, c))
  {
  }

  lemma StepKeeps(cfg: Config, lib: Verify.Lib, ks: KillSwitch, c: CallState)
    requires Good(cfg, lib, c) && !c.pc.Done?
    ensures Kept(cfg, lib, StepBy(cfg, lib, ks, c))
  {
    match c.pc {
      case AtStart => StartKeeps(cfg, lib, ks, c);
      case AtGate => GateKeeps(cfg, lib, ks, c);
      case AtVerify => VerifyKeeps(cfg, lib, c);
      case AtPreflight => PreflightKeeps(cfg, lib, c);
      case Polling(_, _) => PollKeeps(cfg, lib, c);
      case Answered(_) => RedeemedKeeps(cfg, lib, c);
      case _ =>
    }
  }

  lemma AnswerKeeps(cfg: Config, lib: Verify.Lib, c: CallState, reply: Reply<string>)
    requires Good(cfg, lib, c) && c.pc.Redeeming?
    ensures Good(cfg, lib, c.(w := c.w.(redeem := reply), pc := Answered(c.pc.id)))
  {
  }

  // ----------------------------------------------------------- the audit trail

  /** The records left by one call. */
  function EntriesOf(audit: seq<Entry>, owner: nat): seq<Record> {
    if audit == [] then [] else
      var last := audit[|audit| - 1];
      EntriesOf(audit[..|audit| - 1], owner) + if last.owner == owner then [last.record] else []
  }

  function AsSeq(record: Option<Record>): seq<Record> {
    match record case Some(r) => [r] case None => []
  }

  lemma EnteredEntries(audit: seq<Entry>, i: nat, record: Option<Record>, owner: nat)
    ensures EntriesOf(Entered(audit, i, record), owner)
            == EntriesOf(audit, owner) + if i == owner then AsSeq(record) else []
  {
    if record.Some? {
      assert Entered(audit, i, record)[..|audit|] == audit;
    }
  }

  /** A finished call has left the record it would leave alone; an unfinished one has left none. */
  ghost predicate Audited(cfg: Config, lib: Verify.Lib, c: CallState, entries: seq<Record>)
    requires WorldOk(cfg, c.w)
  {
    entries == if c.pc.Done? then AsSeq(Alone(cfg, lib, c).record) else []
  }

  // ------------------------------------------------------ grants and their users

  /** The approval a call waits for, if sigil-core asks for one. */
  function ApprovalId(c: CallState): string {
    if SaysApprove(c.w.preflight) then c.w.preflight.body.value.approvalId else ""
  }

  /** The tool is about to run, is running, or has run. */
  predicate Executing(c: CallState) {
    c.pc.AtTool? || c.pc.AtAudit? || (c.pc.Done? && c.pc.outcome.Ran?)
  }

  /** The call may run only under a grant. */
  predicate Gated(c: CallState) { HighRisk(c.call.tier) && SaysApprove(c.w.preflight) }

  /** The call has a grant in hand. */
  predicate HoldsGrant(c: CallState) {
    if c.pc.Answered? then CarriesGrant(c.w.redeem) else Executing(c) && Gated(c)
  }

  ghost predicate GrantOk(s: State, i: nat)
    requires i < |s.calls|
  {
    var c := s.calls[i];
    && (i in s.requests ==> s.requests[i] == ApprovalId(c))
    && (i in s.replies && CarriesGrant(s.replies[i]) ==> Issued(s, i, ApprovalId(c), s.replies[i]))
    && (HoldsGrant(c) ==> Issued(s, i, ApprovalId(c), c.w.redeem))
  }

  /** The server's ledger says that this reply was its answer to this call. */
  predicate Issued(s: State, i: nat, id: string, reply: Reply<string>) {
    CarriesGrant(reply) && id in s.grants && s.grants[id] == Grant(Some(i), reply.body.value)
  }

  ghost predicate SwitchOk(cfg: Config, ks: KillSwitch) {
    ks.Subscribed? ==> Revocation.OwnAgentKept(RevocationConfig(cfg), ks.registry)
  }

  lemma SwitchStaysOk(cfg: Config, ks: KillSwitch, a: Action)
    requires SwitchOk(cfg, ks)
    ensures SwitchOk(cfg, SwitchBy(cfg, ks, a)) && SwitchBy(cfg, ks, a).Subscribed? == ks.Subscribed?
    ensures ks.Subscribed? && cfg.agentId in ks.registry.reasons ==> cfg.agentId in SwitchBy(cfg, ks, a).registry.reasons
    ensures ks.Subscribed? && a.Message? && Revocation.Relevant(RevocationConfig(cfg), a.m) ==>
              cfg.agentId in SwitchBy(cfg, ks, a).registry.reasons
  {
    if ks.Subscribed? && a.Message? {
      Revocation.MessageKeepsOwnAgent(RevocationConfig(cfg), ks.registry, a.m);
    }
  }

  ghost predicate Inv(cfg: Config, lib: Verify.Lib, s: State) {
    && SwitchOk(cfg, s.ks)
    && (forall i :: i in s.requests || i in s.replies ==> i < |s.calls|)
    && (forall i :: 0 <= i < |s.calls| ==> Good(cfg, lib, s.calls[i]))
    && (forall i :: 0 <= i < |s.calls| ==> Audited(cfg, lib, s.calls[i], EntriesOf(s.audit, i)))
    && (forall i :: 0 <= i < |s.calls| ==> GrantOk(s, i))
  }

  /** A step leaves its call's worldly affairs alone, and takes no grant that was not in hand before. */
  predicate TakesNoGrant(c: CallState, c': CallState) {
    && c'.w.preflight == c.w.preflight && c'.w.redeem == c.w.redeem && c'.call == c.call
    && (HoldsGrant(c') ==> HoldsGrant(c))
  }

  lemma PreflightTakesNoGrant(cfg: Config, c: CallState)
    requires c.task.Some? && c.pc.AtPreflight?
    ensures TakesNoGrant(c, PreflightBy(cfg, c).0)
  {
  }

  lemma RedeemedTakesNoGrant(cfg: Config, c: CallState)
    requires c.task.Some? && c.pc.Answered?
    ensures TakesNoGrant(c, RedeemedBy(cfg, c).0)
  {
  }

  lemma StepTakesNoGrant(cfg: Config, lib: Verify.Lib, ks: KillSwitch, c: CallState)
    requires HasTask(c) && !c.pc.Done?
    ensures TakesNoGrant(c, StepBy(cfg, lib, ks, c).0)
  {
    match c.pc {
      case AtPreflight => PreflightTakesNoGrant(cfg, c);
      case Answered(_) => RedeemedTakesNoGrant(cfg, c);
      case _ =>
    }
  }

  lemma NeedsItsApproval(cfg: Config, lib: Verify.Lib, c: CallState, id: string)
    requires c.task.Some? && CheckOf(cfg, lib, c) == NeedsApproval(id)
    ensures Gated(c) && id == ApprovalId(c)
  {
    CheckMeaning(cfg, lib, c.task.value, c.call, c.w);
  }

  // ------------------------------------------------- every action keeps all this

  lemma MovedCall(s: State, i: nat, step: (CallState, Option<Record>), j: nat)
    requires i < |s.calls| && j < |s.calls|
    ensures var t := Moved(s, i, step);
            j < |t.calls| && t.calls[j] == (if i == j then step.0 else s.calls[j]) && t.audit == Entered(s.audit, i, step.1)
  {
  }

  lemma MovedKeepsAudit(cfg: Config, lib: Verify.Lib, s: State, i: nat, step: (CallState, Option<Record>), j: nat)
    requires i < |s.calls| && j < |s.calls| && !s.calls[i].pc.Done? && Kept(cfg, lib, step)
    requires Good(cfg, lib, s.calls[j]) && Audited(cfg, lib, s.calls[j], EntriesOf(s.audit, j))
    ensures var t := Moved(s, i, step);
            j < |t.calls| && Good(cfg, lib, t.calls[j]) && Audited(cfg, lib, t.calls[j], EntriesOf(t.audit, j))
  {
    MovedCall(s, i, step, j);
    OneMoreEntry(cfg, lib, s.audit, i, step, s.calls[j], j);
  }

  /** Call i takes a step: what that means for the audit of call j, which is as `c` before. */
  lemma OneMoreEntry(
    cfg: Config, lib: Verify.Lib, audit: seq<Entry>, i: nat, step: (CallState, Option<Record>), c: CallState, j: nat)
    requires Good(cfg, lib, c) && Audited(cfg, lib, c, EntriesOf(audit, j)) && Kept(cfg, lib, step)
    requires i == j ==> !c.pc.Done?
    ensures Audited(cfg, lib, if i == j then step.0 else c, EntriesOf(Entered(audit, i, step.1), j))
  {
    EnteredEntries(audit, i, step.1, j);
    if i == j {
      StepIsAudited(cfg, lib, EntriesOf(audit, i), step);
    } else {
      assert EntriesOf(audit, j) + [] == EntriesOf(audit, j);
    }
  }

  lemma StepIsAudited(cfg: Config, lib: Verify.Lib, entries: seq<Record>, step: (CallState, Option<Record>))
    requires Kept(cfg, lib, step) && entries == []
    ensures Audited(cfg, lib, step.0, entries + AsSeq(step.1))
  {
  }

  lemma MovedKeepsGrants(s: State, i: nat, step: (CallState, Option<Record>), j: nat)
    requires i < |s.calls| && j < |s.calls| && GrantOk(s, j) && TakesNoGrant(s.calls[i], step.0)
    requires s.calls[i].pc.AtRedeem? ==> s.calls[i].pc.id == ApprovalId(s.calls[i])
    ensures GrantOk(Moved(s, i, step), j)
  {
  }

  lemma MoveKeepsInv(cfg: Config, lib: Verify.Lib, s: State, i: nat)
    requires WellFormed(s) && Inv(cfg, lib, s) && Enabled(s, Move(i))
    ensures Inv(cfg, lib, MoveBy(cfg, lib, s, i))
  {
    var c := s.calls[i];
    StepKeeps(cfg, lib, s.ks, c);
    StepTakesNoGrant(cfg, lib, s.ks, c);
    if c.pc.AtRedeem? {
      NeedsItsApproval(cfg, lib, c, c.pc.id);
    }
    forall j | 0 <= j < |s.calls|
      ensures var t := MoveBy(cfg, lib, s, i);
              Good(cfg, lib, t.calls[j]) && Audited(cfg, lib, t.calls[j], EntriesOf(t.audit, j)) && GrantOk(t, j)
    {
      assert Good(cfg, lib, s.calls[j]) && Audited(cfg, lib, s.calls[j], EntriesOf(s.audit, j));
      MovedKeepsAudit(cfg, lib, s, i, StepBy(cfg, lib, s.ks, c), j);
      MovedKeepsGrants(s, i, StepBy(cfg, lib, s.ks, c), j);
    }
  }

  lemma AnswerKeepsInv(cfg: Config, lib: Verify.Lib, s: State, i: nat, reply: Reply<string>)
    requires Inv(cfg, lib, s) && Enabled(s, Hear(i, reply))
    ensures Inv(cfg, lib, AnswerBy(s, i, reply))
  {
    var t := AnswerBy(s, i, reply);
    AnswerKeeps(cfg, lib, s.calls[i], reply);
    forall j | 0 <= j < |t.calls|
      ensures Audited(cfg, lib, t.calls[j], EntriesOf(t.audit, j)) && GrantOk(t, j)
    {
      assert Audited(cfg, lib, s.calls[j], EntriesOf(s.audit, j));
      assert GrantOk(s, j);
    }
  }

  lemma ServeKeepsInv(cfg: Config, lib: Verify.Lib, s: State, i: nat, refusal: Option<nat>, rid: string)
    requires Inv(cfg, lib, s) && Enabled(s, Serve(i, refusal, rid))
    ensures Inv(cfg, lib, ServeBy(s, i, refusal, rid))
  {
    var t := ServeBy(s, i, refusal, rid);
    forall j | 0 <= j < |t.calls|
      ensures Audited(cfg, lib, t.calls[j], EntriesOf(t.audit, j)) && GrantOk(t, j)
    {
      assert Audited(cfg, lib, s.calls[j], EntriesOf(s.audit, j));
      assert GrantOk(s, j) && GrantOk(s, i);
    }
  }

  lemma DoKeepsInv(cfg: Config, lib: Verify.Lib, s: State, a: Action)
    requires WellFormed(s) && Inv(cfg, lib, s) && Enabled(s, a)
    ensures Inv(cfg, lib, Do(cfg, lib, s, a))
  {
    match a {
      case Serve(i, refusal, rid) => ServeKeepsInv(cfg, lib, s, i, refusal, rid);
      case Hear(i, reply) => AnswerKeepsInv(cfg, lib, s, i, reply);
      case Move(i) => MoveKeepsInv(cfg, lib, s, i);
      case _ =>
        SwitchStaysOk(cfg, s.ks, a);
        var t := Do(cfg, lib, s, a);
        forall j | 0 <= j < |t.calls|
          ensures Audited(cfg, lib, t.calls[j], EntriesOf(t.audit, j)) && GrantOk(t, j)
        {
          assert Audited(cfg, lib, s.calls[j], EntriesOf(s.audit, j));
          assert GrantOk(s, j);
        }
    }
  }

  lemma {:induction false} RunKeepsInv(cfg: Config, lib: Verify.Lib, s: State, actions: seq<Action>)
    requires WellFormed(s) && CanRun(cfg, lib, s, actions) && Inv(cfg, lib, s)
    ensures Inv(cfg, lib, Run(cfg, lib, s, actions))
    decreases |actions|
  {
    if actions != [] {
      var front := actions[..|actions| - 1];
      RunKeepsInv(cfg, lib, s, front);
      DoKeepsInv(cfg, lib, Run(cfg, lib, s, front), actions[|actions| - 1]);
    }
  }

  lemma InitInv(cfg: Config, lib: Verify.Lib, s: State)
    requires Init(cfg, s)
    ensures WellFormed(s) && Inv(cfg, lib, s)
  {
  }

  ghost predicate Reachable(cfg: Config, lib: Verify.Lib, s: State) {
    exists s0, actions :: Init(cfg, s0) && WellFormed(s0) && CanRun(cfg, lib, s0, actions) && s == Run(cfg, lib, s0, actions)
  }

  lemma ReachableInv(cfg: Config, lib: Verify.Lib, s: State)
    requires Reachable(cfg, lib, s)
    ensures WellFormed(s) && Inv(cfg, lib, s)
  {
    var s0, actions :| Init(cfg, s0) && WellFormed(s0) && CanRun(cfg, lib, s0, actions) && s == Run(cfg, lib, s0, actions);
    InitInv(cfg, lib, s0);
    RunKeepsInv(cfg, lib, s0, actions);
  }

  // ------------------------------------------------------------- the theorems

  lemma EndsAsIfAlone(cfg: Config, lib: Verify.Lib, s: State, i: nat)
    requires Inv(cfg, lib, s) && i < |s.calls|
    ensures var c := s.calls[i];
            && WorldOk(cfg, c.w)
            && (c.pc.Done? ==> c.pc.outcome == Alone(cfg, lib, c).outcome)
            && EntriesOf(s.audit, i) == if c.pc.Done? then AsSeq(Alone(cfg, lib, c).record) else []
  {
    assert Good(cfg, lib, s.calls[i]);
    assert Audited(cfg, lib, s.calls[i], EntriesOf(s.audit, i));
  }

  /**
   In every reachable state of every interleaving a finished call has ended exactly as the blocking
   wrapper would have ended it alone in the world it met, and has left exactly that record, once; an
   unfinished call has left no record.
   */
  lemma EveryCallEndsAsIfAlone(cfg: Config, lib: Verify.Lib, s: State, i: nat)
    requires Reachable(cfg, lib, s) && i < |s.calls|
    ensures var c := s.calls[i];
            && WorldOk(cfg, c.w)
            && (c.pc.Done? ==> c.pc.outcome == Decide(cfg, lib, c.task, c.call, c.w).outcome)
            && EntriesOf(s.audit, i) == if c.pc.Done? then AsSeq(Decide(cfg, lib, c.task, c.call, c.w).record) else []
  {
    ReachableInv(cfg, lib, s);
    EndsAsIfAlone(cfg, lib, s, i);
  }

  /**
   No tool is entered, in any interleaving, unless the world the call has met permits it. In particular
   the task's token grants this very tool, block by block, for this tenant, in time and by a right
   signature; and the kill-switch had neither the agent nor the task as revoked.
   */
  lemma NothingRunsUnpermitted(cfg: Config, lib: Verify.Lib, s: State, i: nat)
    requires Reachable(cfg, lib, s) && i < |s.calls|
    ensures var c := s.calls[i];
            && (Executing(c) ==> MayExecute(cfg, lib, c.task, c.call, c.w))
            && (Executing(c) ==>
                  && c.task.Some? && c.task.value.token.Some?
                  && HoldsAuthority(cfg, lib, c.task.value.token.value, c.call, c.w.now)
                  && !Killed(c.w.atRevocation, cfg.agentId, c.task.value.taskId) && !GateShut(cfg, c.w.atGate)
                  && (c.call.tier in {Low, Med} || CoreConsents(cfg, c.w)))
            && (c.pc.Done? ==> (c.pc.outcome.Ran? <==> MayExecute(cfg, lib, c.task, c.call, c.w)))
  {
    ReachableInv(cfg, lib, s);
    var c := s.calls[i];
    assert Good(cfg, lib, c);
    ExecutesExactlyWhenAllowed(cfg, lib, c.task, c.call, c.w);
    MayExecuteExactlyWhen(cfg, lib, c.task, c.call, c.w);
  }

  /** A gated call that runs is the one the server's ledger names. */
  lemma RunsAsOwner(cfg: Config, lib: Verify.Lib, s: State, i: nat)
    requires Inv(cfg, lib, s) && i < |s.calls| && Gated(s.calls[i]) && Executing(s.calls[i])
    ensures Issued(s, i, ApprovalId(s.calls[i]), s.calls[i].w.redeem)
  {
    assert GrantOk(s, i);
  }

  /** Its record, once there is one, carries the grant it was sent. */
  lemma RecordCarriesGrant(cfg: Config, lib: Verify.Lib, s: State, i: nat)
    requires Inv(cfg, lib, s) && i < |s.calls| && Gated(s.calls[i]) && s.calls[i].pc.Done? && s.calls[i].pc.outcome.Ran?
    ensures CarriesGrant(s.calls[i].w.redeem) && |EntriesOf(s.audit, i)| == 1
    ensures EntriesOf(s.audit, i)[0].event.grantId == Some(s.calls[i].w.redeem.body.value)
  {
    var c := s.calls[i];
    EndsAsIfAlone(cfg, lib, s, i);
    RunningIsRecorded(cfg, lib, c);
    RecordIsTruthful(cfg, lib, c.task, c.call, c.w);
  }

  lemma RunningIsRecorded(cfg: Config, lib: Verify.Lib, c: CallState)
    requires WorldOk(cfg, c.w) && Alone(cfg, lib, c).outcome.Ran?
    ensures Alone(cfg, lib, c).record.Some?
  {
  }

  /** A call that came as far as its approval ends by running or by being denied. */
  lemma AskedIsDenied(cfg: Config, lib: Verify.Lib, s: State, j: nat)
    requires Inv(cfg, lib, s) && j < |s.calls| && s.calls[j].pc.Done? && !s.calls[j].pc.outcome.Ran?
    requires s.calls[j].task.Some? && CheckOf(cfg, lib, s.calls[j]).NeedsApproval?
    ensures s.calls[j].pc.outcome.Denied?
  {
    var c := s.calls[j];
    EndsAsIfAlone(cfg, lib, s, j);
    AskedIsPolled(cfg, lib, c.task.value, c.call, c.w);
  }

  /**
   Single use. Of all calls that wait for the same approval at most one ever gets as far as running
   its tool: the one the server issued the grant to, and its record carries that grant. A call that
   came as far as the approval and ended without running was denied.
   */
  lemma SingleUse(cfg: Config, lib: Verify.Lib, s: State, i: nat, j: nat)
    requires Reachable(cfg, lib, s) && i < |s.calls| && j < |s.calls| && i != j
    requires Gated(s.calls[i]) && Gated(s.calls[j]) && ApprovalId(s.calls[i]) == ApprovalId(s.calls[j])
    requires Executing(s.calls[i])
    ensures !Executing(s.calls[j])
    ensures var id := ApprovalId(s.calls[i]);
            && id in s.grants && s.grants[id].owner == Some(i)
            && (s.calls[i].pc.Done? ==>
                  |EntriesOf(s.audit, i)| == 1
                  && EntriesOf(s.audit, i)[0].event.grantId == Some(s.grants[id].revocationId))
    ensures s.calls[j].pc.Done? && s.calls[j].task.Some? && CheckOf(cfg, lib, s.calls[j]).NeedsApproval? ==>
              s.calls[j].pc.outcome.Denied?
  {
    ReachableInv(cfg, lib, s);
    RunsAsOwner(cfg, lib, s, i);
    if Executing(s.calls[j]) {
      RunsAsOwner(cfg, lib, s, j);
    } else if s.calls[j].pc.Done? && s.calls[j].task.Some? && CheckOf(cfg, lib, s.calls[j]).NeedsApproval? {
      AskedIsDenied(cfg, lib, s, j);
    }
    if s.calls[i].pc.Done? {
      RecordCarriesGrant(cfg, lib, s, i);
    }
  }

  /** Nobody can run any more under this approval: it went elsewhere, or to a call that ended without running. */
  predicate Spent(s: State, id: string) {
    id in s.grants &&
    match s.grants[id].owner
    case None => true
    case Some(k) => k < |s.calls| && s.calls[k].pc.Done? && !s.calls[k].pc.outcome.Ran?
  }

  lemma SpentStep(cfg: Config, lib: Verify.Lib, s: State, a: Action, id: string)
    requires WellFormed(s) && Enabled(s, a) && Spent(s, id)
    ensures Spent(Do(cfg, lib, s, a), id)
  {
  }

  lemma {:induction false} SpentStays(cfg: Config, lib: Verify.Lib, s: State, actions: seq<Action>, id: string)
    requires WellFormed(s) && CanRun(cfg, lib, s, actions) && Spent(s, id)
    ensures Spent(Run(cfg, lib, s, actions), id)
    decreases |actions|
  {
    if actions != [] {
      var front := actions[..|actions| - 1];
      SpentStays(cfg, lib, s, front, id);
      SpentStep(cfg, lib, Run(cfg, lib, s, front), actions[|actions| - 1], id);
    }
  }

  /**
   A grant whose reply was lost, or came too late, is lost: the call it was issued to is denied, and no
   call ever runs under that approval, whatever happens later.
   */
  lemma LostGrantIsNeverUsed(cfg: Config, lib: Verify.Lib, s: State, actions: seq<Action>, id: string, j: nat)
    requires Reachable(cfg, lib, s) && Spent(s, id) && WellFormed(s) && CanRun(cfg, lib, s, actions)
    requires j < |Run(cfg, lib, s, actions).calls|
    ensures var c := Run(cfg, lib, s, actions).calls[j];
            Gated(c) && ApprovalId(c) == id ==> !Executing(c)
  {
    ReachableInv(cfg, lib, s);
    RunKeepsInv(cfg, lib, s, actions);
    SpentStays(cfg, lib, s, actions, id);
    assert GrantOk(Run(cfg, lib, s, actions), j);
  }

  ghost predicate Stopped(cfg: Config, s: State, i: nat) {
    && SwitchOk(cfg, s.ks) && s.ks.Subscribed? && cfg.agentId in s.ks.registry.reasons
    && i < |s.calls| && (s.calls[i].pc.AtStart? || (s.calls[i].pc.Done? && s.calls[i].pc.outcome.Denied?))
  }

  lemma StoppedStep(cfg: Config, lib: Verify.Lib, s: State, a: Action, i: nat)
    requires WellFormed(s) && Enabled(s, a) && cfg.agentId != "" && Stopped(cfg, s, i)
    ensures Stopped(cfg, Do(cfg, lib, s, a), i)
  {
    SwitchStaysOk(cfg, s.ks, a);
  }

  lemma {:induction false} StoppedStays(cfg: Config, lib: Verify.Lib, s: State, actions: seq<Action>, i: nat)
    requires WellFormed(s) && CanRun(cfg, lib, s, actions) && cfg.agentId != "" && Stopped(cfg, s, i)
    ensures Stopped(cfg, Run(cfg, lib, s, actions), i)
    decreases |actions|
  {
    if actions != [] {
      var front := actions[..|actions| - 1];
      StoppedStays(cfg, lib, s, front, i);
      StoppedStep(cfg, lib, Run(cfg, lib, s, front), actions[|actions| - 1], i);
    }
  }

  /**
   Once a revocation that concerns this agent has been received, no call that has not begun yet ever
   runs its tool, whatever messages follow and however the calls interleave.
   */
  lemma RevocationStopsLaterCalls(cfg: Config, lib: Verify.Lib, s: State, m: Revocation.Message, actions: seq<Action>, i: nat)
    requires Reachable(cfg, lib, s) && s.ks.Subscribed? && cfg.agentId != ""
    requires m.Parsed? && Revocation.ConcernsUs(Revocation.Config(cfg.tenantId, cfg.agentId, 10_000), m.payload)
    requires i < |s.calls| && s.calls[i].pc.AtStart?
    requires WellFormed(s) && WellFormed(Do(cfg, lib, s, Message(m))) && CanRun(cfg, lib, Do(cfg, lib, s, Message(m)), actions)
    ensures var t := Run(cfg, lib, Do(cfg, lib, s, Message(m)), actions);
            i < |t.calls| && !Executing(t.calls[i]) && (t.calls[i].pc.Done? ==> t.calls[i].pc.outcome.Denied?)
  {
    ReachableInv(cfg, lib, s);
    Revocation.RelevantExactlyWhen(RevocationConfig(cfg), m);
    SwitchStaysOk(cfg, s.ks, Message(m));
    StoppedStays(cfg, lib, Do(cfg, lib, s, Message(m)), actions, i);
  }

  // --------------------------------------------- the shared state, from its history

  /** The messages of a run, in order. */
  function MessagesOf(actions: seq<Action>): seq<Revocation.Message> {
    if actions == [] then [] else
      var last := actions[|actions| - 1];
      MessagesOf(actions[..|actions| - 1]) + if last.Message? then [last.m] else []
  }

  /** Whether the subscriber was last seen to connect or to disconnect. */
  function LastLink(actions: seq<Action>, before: bool): bool {
    if actions == [] then before
    else if actions[|actions| - 1].Link? then actions[|actions| - 1].up
    else LastLink(actions[..|actions| - 1], before)
  }

  lemma RunOneMore(cfg: Revocation.Config, msgs: seq<Revocation.Message>, m: Revocation.Message)
    ensures Revocation.Run(cfg, msgs + [m]) == Revocation.AfterMessage(cfg, Revocation.Run(cfg, msgs), m)
  {
    assert (msgs + [m])[..|msgs|] == msgs;
  }

  /** At any time the kill-switch is what its messages and its connection have made it, for 10 000 keys at most. */
  lemma {:induction false} SwitchFromHistory(cfg: Config, lib: Verify.Lib, s: State, actions: seq<Action>)
    requires Init(cfg, s) && WellFormed(s) && CanRun(cfg, lib, s, actions)
    ensures Run(cfg, lib, s, actions).ks == match s.ks
                                            case NoSubscriber(_) => s.ks
                                            case Subscribed(_, up) =>
                                              Subscribed(Revocation.Run(Revocation.Config(cfg.tenantId, cfg.agentId, 10_000), MessagesOf(actions)),
                                                         LastLink(actions, up))
    decreases |actions|
  {
    if actions != [] {
      var front, last := actions[..|actions| - 1], actions[|actions| - 1];
      SwitchFromHistory(cfg, lib, s, front);
      SwitchStep(cfg, lib, Run(cfg, lib, s, front), last);
      if last.Message? {
        RunOneMore(RevocationConfig(cfg), MessagesOf(front), last.m);
      } else {
        assert MessagesOf(front) + [] == MessagesOf(front);
      }
    }
  }

  lemma SwitchStep(cfg: Config, lib: Verify.Lib, s: State, a: Action)
    requires WellFormed(s) && Enabled(s, a)
    ensures Do(cfg, lib, s, a).ks == if a.Message? || a.Link? then SwitchBy(cfg, s.ks, a) else s.ks
  {
  }

  /** The action redeems the approval: another process does, or the server grants the request of a call. */
  predicate Redeems(s: State, a: Action, id: string) {
    (a.Elsewhere? && a.id == id) || (a.Serve? && a.refusal.None? && a.i in s.requests && s.requests[a.i] == id)
  }

  lemma GrantStep(cfg: Config, lib: Verify.Lib, s: State, a: Action, id: string)
    requires WellFormed(s) && Enabled(s, a)
    ensures id in Do(cfg, lib, s, a).grants <==> id in s.grants || Redeems(s, a, id)
    ensures id in s.grants ==> Do(cfg, lib, s, a).grants[id] == s.grants[id]
  {
  }

  ghost predicate RedeemedAt(cfg: Config, lib: Verify.Lib, s: State, actions: seq<Action>, k: nat, id: string)
    requires WellFormed(s)
  {
    k < |actions| && CanRun(cfg, lib, s, actions[..k]) && Redeems(Run(cfg, lib, s, actions[..k]), actions[k], id)
  }

  ghost predicate EverRedeemed(cfg: Config, lib: Verify.Lib, s: State, actions: seq<Action>, id: string)
    requires WellFormed(s)
  {
    exists k: nat :: RedeemedAt(cfg, lib, s, actions, k, id)
  }

  lemma RedeemedStep(cfg: Config, lib: Verify.Lib, s: State, actions: seq<Action>, id: string)
    requires WellFormed(s) && actions != [] && CanRun(cfg, lib, s, actions)
    ensures var front := actions[..|actions| - 1];
            EverRedeemed(cfg, lib, s, actions, id)
            <==> EverRedeemed(cfg, lib, s, front, id) || Redeems(Run(cfg, lib, s, front), actions[|actions| - 1], id)
  {
    var front := actions[..|actions| - 1];
    if k: nat :| RedeemedAt(cfg, lib, s, actions, k, id) {
      if k < |front| {
        assert front[..k] == actions[..k];
        assert RedeemedAt(cfg, lib, s, front, k, id);
      }
    }
    if k: nat :| RedeemedAt(cfg, lib, s, front, k, id) {
      assert front[..k] == actions[..k];
      assert RedeemedAt(cfg, lib, s, actions, k, id);
    }
    if Redeems(Run(cfg, lib, s, front), actions[|front|], id) {
      assert RedeemedAt(cfg, lib, s, actions, |front|, id);
    }
  }

  /** The ledger of the server: an approval is granted exactly if someone has redeemed it, here or elsewhere, and stays so. */
  lemma {:induction false} GrantedExactlyWhen(cfg: Config, lib: Verify.Lib, s: State, actions: seq<Action>, id: string)
    requires WellFormed(s) && CanRun(cfg, lib, s, actions)
    ensures id in Run(cfg, lib, s, actions).grants <==> id in s.grants || EverRedeemed(cfg, lib, s, actions, id)
    ensures id in s.grants ==> Run(cfg, lib, s, actions).grants[id] == s.grants[id]
    decreases |actions|
  {
    if actions != [] {
      var front := actions[..|actions| - 1];
      GrantedExactlyWhen(cfg, lib, s, front, id);
      GrantStep(cfg, lib, Run(cfg, lib, s, front), actions[|actions| - 1], id);
      RedeemedStep(cfg, lib, s, actions, id);
    }
  }

  // ------------------------------------------- a call sees the kill-switch as it is

  /** Action k is a step of call i from this point, taken while the kill-switch was in this state. */
  ghost predicate LooksAt(cfg: Config, lib: Verify.Lib, s: State, actions: seq<Action>, k: nat, i: nat, pc: Pc, ks: KillSwitch)
    requires WellFormed(s)
  {
    && k < |actions| && actions[k] == Move(i) && CanRun(cfg, lib, s, actions[..k])
    && var t := Run(cfg, lib, s, actions[..k]); i < |t.calls| && t.calls[i].pc == pc && t.ks == ks
  }

  ghost predicate HasSeen(cfg: Config, lib: Verify.Lib, s: State, actions: seq<Action>, i: nat, pc: Pc, ks: KillSwitch)
    requires WellFormed(s)
  {
    exists k: nat :: LooksAt(cfg, lib, s, actions, k, i, pc, ks)
  }

  lemma SeenBefore(cfg: Config, lib: Verify.Lib, s: State, actions: seq<Action>, i: nat, pc: Pc, ks: KillSwitch)
    requires WellFormed(s) && actions != [] && HasSeen(cfg, lib, s, actions[..|actions| - 1], i, pc, ks)
    ensures HasSeen(cfg, lib, s, actions, i, pc, ks)
  {
    var front := actions[..|actions| - 1];
    var k: nat :| LooksAt(cfg, lib, s, front, k, i, pc, ks);
    assert front[..k] == actions[..k];
    assert LooksAt(cfg, lib, s, actions, k, i, pc, ks);
  }

  /** The call has got past its revocation check, or past the kill-switch gate. */
  predicate PastStart(c: CallState) { !c.pc.AtStart? && (c.pc.Done? ==> c.pc.outcome.Ran?) }

  predicate PastGate(c: CallState) { PastStart(c) && !c.pc.AtGate? }

  /** The two points at which a call looks at the kill-switch, and what it takes with it. */
  lemma MoveLooks(cfg: Config, lib: Verify.Lib, ks: KillSwitch, c: CallState)
    requires HasTask(c) && !c.pc.Done?
    ensures var c' := StepBy(cfg, lib, ks, c).0;
            && (PastStart(c') ==> c'.w.atRevocation == if c.pc.AtStart? then ks else c.w.atRevocation)
            && (PastGate(c') ==> !c.pc.AtStart? && c'.w.atGate == if c.pc.AtGate? then ks else c.w.atGate)
  {
  }

  lemma OthersDoNotLook(cfg: Config, lib: Verify.Lib, s: State, a: Action, i: nat)
    requires WellFormed(s) && Enabled(s, a) && i < |s.calls| && a != Move(i)
    ensures var c, t := s.calls[i], Do(cfg, lib, s, a);
            && i < |t.calls| && t.calls[i].w.atRevocation == c.w.atRevocation && t.calls[i].w.atGate == c.w.atGate
            && (PastStart(t.calls[i]) <==> PastStart(c)) && (PastGate(t.calls[i]) <==> PastGate(c))
  {
  }

  /**
   What a call has seen of the kill-switch is what the kill-switch was when the call looked: once as it
   began, and once more at the gate.
   */
  lemma {:induction false} SeesTheSwitchAsItIs(cfg: Config, lib: Verify.Lib, s: State, actions: seq<Action>, i: nat)
    requires Init(cfg, s) && WellFormed(s) && CanRun(cfg, lib, s, actions) && i < |s.calls|
    ensures i < |Run(cfg, lib, s, actions).calls|
    ensures SeenAsItIs(cfg, lib, s, actions, i, Run(cfg, lib, s, actions).calls[i])
    decreases |actions|
  {
    if actions != [] {
      var front, a := actions[..|actions| - 1], actions[|actions| - 1];
      var before := Run(cfg, lib, s, front);
      SeesTheSwitchAsItIs(cfg, lib, s, front, i);
      DoWellFormed(cfg, lib, before, a);
      LooksOnce(cfg, lib, s, actions, i);
    }
  }

  /** The call's last look at the kill-switch, at either point, was a look at what it was then. */
  ghost predicate SeenAsItIs(cfg: Config, lib: Verify.Lib, s: State, actions: seq<Action>, i: nat, c: CallState)
    requires WellFormed(s)
  {
    && (PastStart(c) ==> HasSeen(cfg, lib, s, actions, i, AtStart, c.w.atRevocation))
    && (PastGate(c) ==> HasSeen(cfg, lib, s, actions, i, AtGate, c.w.atGate))
  }

  lemma StillSeen(cfg: Config, lib: Verify.Lib, s: State, actions: seq<Action>, i: nat, c: CallState)
    requires WellFormed(s) && actions != [] && SeenAsItIs(cfg, lib, s, actions[..|actions| - 1], i, c)
    ensures SeenAsItIs(cfg, lib, s, actions, i, c)
  {
    if PastStart(c) {
      SeenBefore(cfg, lib, s, actions, i, AtStart, c.w.atRevocation);
    }
    if PastGate(c) {
      SeenBefore(cfg, lib, s, actions, i, AtGate, c.w.atGate);
    }
  }

  lemma LooksOnce(cfg: Config, lib: Verify.Lib, s: State, actions: seq<Action>, i: nat)
    requires WellFormed(s) && actions != [] && CanRun(cfg, lib, s, actions)
    requires i < |Run(cfg, lib, s, actions[..|actions| - 1]).calls| && i < |Run(cfg, lib, s, actions).calls|
    requires SeenAsItIs(cfg, lib, s, actions[..|actions| - 1], i, Run(cfg, lib, s, actions[..|actions| - 1]).calls[i])
    ensures SeenAsItIs(cfg, lib, s, actions, i, Run(cfg, lib, s, actions).calls[i])
  {
    var front, a := actions[..|actions| - 1], actions[|actions| - 1];
    var before := Run(cfg, lib, s, front);
    var c := before.calls[i];
    StillSeen(cfg, lib, s, actions, i, c);
    if a == Move(i) {
      assert LooksAt(cfg, lib, s, actions, |front|, i, c.pc, before.ks);
      MoveSees(cfg, lib, s, actions, i, before.ks, c);
    } else {
      OthersDoNotLook(cfg, lib, before, a, i);
    }
  }

  lemma MoveSees(cfg: Config, lib: Verify.Lib, s: State, actions: seq<Action>, i: nat, ks: KillSwitch, c: CallState)
    requires WellFormed(s) && HasTask(c) && !c.pc.Done?
    requires SeenAsItIs(cfg, lib, s, actions, i, c) && HasSeen(cfg, lib, s, actions, i, c.pc, ks)
    ensures SeenAsItIs(cfg, lib, s, actions, i, StepBy(cfg, lib, ks, c).0)
  {
    MoveLooks(cfg, lib, ks, c);
  }

  // ---------------------------------------------------------------- no call hangs

  /** How many steps call i has taken, answers included. */
  function OwnSteps(actions: seq<Action>, i: nat): nat {
    if actions == [] then 0 else OwnSteps(actions[..|actions| - 1], i) + OwnStep(actions[|actions| - 1], i)
  }

  function OwnStep(a: Action, i: nat): nat {
    if (a.Move? || a.Hear?) && a.i == i then 1 else 0
  }

  function MaxSteps(cfg: Config): int {
    4 * ApprovalPoll.MaxCalls(cfg.timeout, cfg.interval) + 9
  }

  /** An upper bound on the steps a call still has to take, if the poll keeps to its own. */
  function StepsLeft(max: int, c: CallState): int {
    match c.pc
    case AtStart => max
    case AtGate => max - 1
    case AtVerify => max - 2
    case AtPreflight => max - 3
    case Polling(_, poll) => max - 4 - (4 * poll.polled + AsyncPoll.Offset(poll))
    case AtRedeem(_) => 5
    case Redeeming(_) => 4
    case Answered(_) => 3
    case AtTool(_, _) => 2
    case AtAudit(_, _) => 1
    case Done(_) => 0
  }

  /** A poll still under way has made few enough status calls. */
  lemma PollWithinBound(w: ApprovalPoll.World, timeout: real, interval: real, poll: AsyncPoll.State)
    requires timeout > 0.0 && interval > 0.0 && ApprovalPoll.ClockOk(w, timeout, interval)
    requires AsyncPoll.Inv(w, timeout, interval, poll)
    ensures 4 * poll.polled + AsyncPoll.Offset(poll) < 4 * ApprovalPoll.MaxCalls(timeout, interval)
  {
    var n := if poll.phase.Answered? || poll.phase.Finished? then poll.polled - 1 else poll.polled;
    ApprovalPoll.WaitsAdvanceClock(w, timeout, interval, n);
  }

  lemma StepsLeftPositive(cfg: Config, lib: Verify.Lib, c: CallState)
    requires Good(cfg, lib, c)
    ensures MaxSteps(cfg) >= 13
    ensures StepsLeft(MaxSteps(cfg), c) >= 0 && (StepsLeft(MaxSteps(cfg), c) == 0 <==> c.pc.Done?)
    ensures c.pc.Polling? ==> StepsLeft(MaxSteps(cfg), c) > 5
  {
    ApprovalPoll.WaitsAdvanceClock(c.w.approval, cfg.timeout, cfg.interval, 0);
    if c.pc.Polling? {
      PollWithinBound(c.w.approval, cfg.timeout, cfg.interval, c.pc.poll);
    }
  }

  lemma PollStepCounts(cfg: Config, max: int, c: CallState)
    requires c.task.Some? && c.pc.Polling? && StepsLeft(max, c) > 5
    ensures StepsLeft(max, PollBy(cfg, c).0) < StepsLeft(max, c)
  {
  }

  lemma StepCounts(cfg: Config, lib: Verify.Lib, max: int, ks: KillSwitch, c: CallState)
    requires HasTask(c) && !c.pc.Done? && !c.pc.Redeeming? && max >= 13
    requires c.pc.Polling? ==> StepsLeft(max, c) > 5
    ensures StepsLeft(max, StepBy(cfg, lib, ks, c).0) < StepsLeft(max, c)
  {
    if c.pc.Polling? {
      PollStepCounts(cfg, max, c);
    }
  }

  lemma DoCounts(cfg: Config, lib: Verify.Lib, max: int, s: State, a: Action, i: nat)
    requires WellFormed(s) && Enabled(s, a) && i < |s.calls| && max >= 13
    requires s.calls[i].pc.Polling? ==> StepsLeft(max, s.calls[i]) > 5
    ensures |Do(cfg, lib, s, a).calls| == |s.calls|
    ensures StepsLeft(max, Do(cfg, lib, s, a).calls[i]) + OwnStep(a, i) <= StepsLeft(max, s.calls[i])
  {
    if a == Move(i) {
      StepCounts(cfg, lib, max, s.ks, s.calls[i]);
    }
  }

  lemma {:induction false} StepsAreCounted(cfg: Config, lib: Verify.Lib, s: State, actions: seq<Action>, i: nat)
    requires WellFormed(s) && Inv(cfg, lib, s) && CanRun(cfg, lib, s, actions) && i < |s.calls|
    ensures |Run(cfg, lib, s, actions).calls| == |s.calls|
    ensures StepsLeft(MaxSteps(cfg), Run(cfg, lib, s, actions).calls[i]) + OwnSteps(actions, i)
            <= StepsLeft(MaxSteps(cfg), s.calls[i])
    decreases |actions|
  {
    if actions != [] {
      var front := actions[..|actions| - 1];
      var before := Run(cfg, lib, s, front);
      StepsAreCounted(cfg, lib, s, front, i);
      RunKeepsInv(cfg, lib, s, front);
      StepsLeftPositive(cfg, lib, before.calls[i]);
      DoCounts(cfg, lib, MaxSteps(cfg), before, actions[|actions| - 1], i);
    }
  }

  /** Every call is over after a bounded number of its own steps, whatever the others and the server do. */
  lemma EveryCallEnds(cfg: Config, lib: Verify.Lib, s: State, actions: seq<Action>, i: nat)
    requires Init(cfg, s) && WellFormed(s) && CanRun(cfg, lib, s, actions) && i < |s.calls|
    requires OwnSteps(actions, i) >= MaxSteps(cfg)
    ensures i < |Run(cfg, lib, s, actions).calls| && Run(cfg, lib, s, actions).calls[i].pc.Done?
  {
    InitInv(cfg, lib, s);
    StepsAreCounted(cfg, lib, s, actions, i);
    RunKeepsInv(cfg, lib, s, actions);
    StepsLeftPositive(cfg, lib, Run(cfg, lib, s, actions).calls[i]);
  }
}
