/**
 One governed tool call: revocation, kill-switch gate, local verification, preflight, human approval,
 single-use redemption, execution, audit.

 `World` holds everything the environment decides during one call. `MayExecute` says, of the
 environment alone, when a tool may run. `Decide` is the call's ending. `Client` performs the call on
 the actual audit buffer and overflow files and is proved against both.
 */
module Governance {
  import opened Wrappers
  import opened Http
  import opened AuditBuffer
  import ApprovalPoll
  import Overflow
  import Revocation
  import Verify

  // ------------------------------------------------------------------ inputs

  datatype Tier = Low | Med | High | Critical

  /** The tiers for which sigil-core is asked before every call. */
  predicate HighRisk(tier: Tier) { tier.High? || tier.Critical? }

  datatype Mode = Closed | Open

  type Positive = x: real | x > 0.0 witness 1.0

  datatype Config = Config(
    tenantId: string, agentId: string, activeKid: string, keyring: map<string, Verify.Bytes>,
    failMode: Mode, killSwitchMode: Mode, timeout: Positive, interval: Positive)

  /** The active task context; an absent task id is the empty string. */
  datatype Task = Task(taskId: string, token: Option<string>)

  /** What the decorator and the arguments fix. Tool calls have no redacted arguments and zero entropy. */
  datatype Call = Call(
    namespace: string, name: string, tier: Tier, argsHash: string, argsRedacted: Option<string>, entropy: real)

  function Fqn(call: Call): string { call.namespace + "." + call.name }

  /** The client's view of the kill-switch: no subscriber, or a subscriber and its connection. */
  datatype KillSwitch = NoSubscriber(redisConfigured: bool) | Subscribed(registry: Revocation.Registry, connected: bool)

  predicate Revoked(ks: KillSwitch, agentId: string, taskId: string) {
    ks.Subscribed? && ks.registry.IsRevoked(agentId, taskId)
  }

  /** Unhealthy only if remote revocation is wanted and cannot be received. */
  predicate Healthy(ks: KillSwitch) {
    match ks case NoSubscriber(configured) => !configured case Subscribed(_, connected) => connected
  }

  /** A preflight body; a field that is absent, null or empty is the empty string. */
  datatype PreflightBody = NotAnObject | Answer(verdict: string, deniedReason: string, approvalId: string)

  /**
   What the environment does during one call, in the order in which the call can find out. `redeem`
   carries the revocation id of the grant; a body without one carries the empty string.
   */
  datatype World = World(
    atRevocation: KillSwitch, atGate: KillSwitch, now: int, preflight: Reply<PreflightBody>,
    approval: ApprovalPoll.World, redeem: Reply<string>, toolRaises: bool, latencyMs: int, io: Overflow.WriteIo)

  ghost predicate WorldOk(cfg: Config, w: World) {
    ApprovalPoll.ClockOk(w.approval, cfg.timeout, cfg.interval)
  }

  // ----------------------------------------------------------------- outputs

  datatype AuditEvent = AuditEvent(
    agentId: string, taskId: string, tool: string, namespace: string, argsHash: string, latencyMs: int,
    outcome: string, tier: Tier, entropy: real, deniedReason: Option<string>, argsRedacted: Option<string>,
    failOpen: bool, grantId: Option<string>)

  /** An event, pushed on the audit buffer or, if `spilled`, written to the overflow instead. */
  datatype Record = Record(event: AuditEvent, spilled: bool)

  /** How a call leaves: the tool ran (and perhaps raised), a Sigil denial, or some other exception. */
  datatype Outcome = Ran(raised: bool) | Denied(reason: string, unreachable: bool) | Escaped

  datatype Ending = Ending(outcome: Outcome, record: Option<Record>)

  function DeniedEvent(cfg: Config, taskId: string, call: Call, reason: string): AuditEvent {
    AuditEvent(cfg.agentId, taskId, Fqn(call), call.namespace, call.argsHash, 0, "denied", call.tier, 0.0,
               Some(reason), call.argsRedacted, false, None)
  }

  function RanEvent(cfg: Config, taskId: string, call: Call, w: World, failOpen: bool, grant: Option<string>): AuditEvent {
    AuditEvent(cfg.agentId, taskId, Fqn(call), call.namespace, call.argsHash, w.latencyMs,
               if w.toolRaises then "error" else "allowed", call.tier, call.entropy,
               None, call.argsRedacted, failOpen, grant)
  }

  // ----------------------------------------- when a tool may run: the promise

  function RequestOf(cfg: Config, call: Call, now: int): Verify.Request {
    Verify.Request(cfg.keyring, if cfg.activeKid == "" then None else Some(cfg.activeKid),
                   Some(Fqn(call)), if cfg.tenantId == "" then None else Some(cfg.tenantId), now)
  }

  ghost predicate TokenAccepted(cfg: Config, lib: Verify.Lib, task: Task, call: Call, w: World) {
    task.token.Some? && Verify.Accepts(lib, RequestOf(cfg, call, w.now), task.token.value)
  }

  ghost predicate TokenRaises(cfg: Config, lib: Verify.Lib, task: Task, call: Call, w: World) {
    task.token.Some? && Verify.Raises(lib, RequestOf(cfg, call, w.now), task.token.value)
  }

  lemma AcceptedDoesNotRaise(cfg: Config, lib: Verify.Lib, task: Task, call: Call, w: World)
    ensures TokenAccepted(cfg, lib, task, call, w) ==> !TokenRaises(cfg, lib, task, call, w)
  {
    if TokenAccepted(cfg, lib, task, call, w) {
      Verify.AcceptedDoesNotRaise(lib, RequestOf(cfg, call, w.now), task.token.value);
    }
  }

  /** Not revoked, the kill-switch gate passed, and the token accepted for this tool and tenant. */
  ghost predicate Cleared(cfg: Config, lib: Verify.Lib, task: Task, call: Call, w: World) {
    && !Revoked(w.atRevocation, cfg.agentId, task.taskId)
    && (cfg.killSwitchMode.Closed? ==> Healthy(w.atGate))
    && TokenAccepted(cfg, lib, task, call, w)
  }

  /** sigil-core gave a readable answer. */
  predicate Reached(reply: Reply<PreflightBody>) {
    reply.Response? && reply.code == 200 && reply.body.Some?
  }

  predicate SaysAllow(reply: Reply<PreflightBody>) {
    Reached(reply) && reply.body.value.Answer? && reply.body.value.verdict == "allow"
  }

  predicate SaysApprove(reply: Reply<PreflightBody>) {
    Reached(reply) && reply.body.value.Answer? && reply.body.value.verdict == "approve" && reply.body.value.approvalId != ""
  }

  /** Every status before the n-th was a non-terminal one read in time, and the n-th was "approved". */
  ghost predicate Approved(cfg: Config, w: World) {
    exists n: nat :: ApprovalPoll.EndsWith(w.approval, cfg.timeout, cfg.interval, n, "approved")
  }

  /** The reply proves a redemption: it carries the id of a grant. */
  predicate CarriesGrant(reply: Reply<string>) {
    reply.Response? && reply.code == 200 && reply.body.Some? && reply.body.value != ""
  }

  ghost predicate MayExecute(cfg: Config, lib: Verify.Lib, task: Option<Task>, call: Call, w: World) {
    && task.Some? && Cleared(cfg, lib, task.value, call, w)
    && (|| !HighRisk(call.tier)
        || SaysAllow(w.preflight)
        || (SaysApprove(w.preflight) && Approved(cfg, w) && CarriesGrant(w.redeem))
        || (!Reached(w.preflight) && cfg.failMode.Open?))
  }

  // ------------------------------------------------------- the checks, in order

  datatype Sink = Nowhere | Buffer | Disk

  datatype Checked = Proceed(failOpen: bool) | NeedsApproval(id: string) | Refused(reason: string, sink: Sink) | Crashed

  function ReasonText(r: Verify.Reason): string {
    match r
    case TokenInvalid => "token_invalid"
    case TaskExpired => "task_expired"
    case TenantMismatch => "tenant_mismatch"
    case ToolNotInScope => "tool_not_in_scope"
  }

  function PreflightOutcome(failMode: Mode, reply: Reply<PreflightBody>): Checked {
    match Expect<PreflightBody>(reply, 200)
    case Returned(NotAnObject) => Crashed
    case Returned(Answer(verdict, reason, approvalId)) =>
      var v := if verdict == "" then "deny" else verdict;
      if v == "deny" then Refused(if reason == "" then "policy_deny" else reason, Buffer)
      else if v == "approve" then
        if approvalId == "" then Refused("approval_service_unavailable", Buffer) else NeedsApproval(approvalId)
      else if v != "allow" then Refused("unknown_verdict", Buffer)
      else Proceed(false)
    case _ => if failMode.Closed? then Refused("sigil_unreachable", Disk) else Proceed(true)
  }

  ghost function FromPreflight(cfg: Config, call: Call, w: World): Checked {
    if HighRisk(call.tier) then PreflightOutcome(cfg.failMode, w.preflight) else Proceed(false)
  }

  ghost function FromVerify(cfg: Config, lib: Verify.Lib, task: Task, call: Call, w: World): Checked {
    if task.token.None? then Refused("token_invalid", Nowhere)
    else if TokenRaises(cfg, lib, task, call, w) then Crashed
    else if !TokenAccepted(cfg, lib, task, call, w) then
      Refused(ReasonText(Verify.DenialOf(lib, RequestOf(cfg, call, w.now), task.token.value)), Buffer)
    else FromPreflight(cfg, call, w)
  }

  ghost function FromGate(cfg: Config, lib: Verify.Lib, task: Task, call: Call, w: World): Checked {
    if cfg.killSwitchMode.Closed? && !Healthy(w.atGate) then Refused("kill_switch_degraded", Buffer)
    else FromVerify(cfg, lib, task, call, w)
  }

  /** The outcome of the checks that need no human. */
  ghost function Check(cfg: Config, lib: Verify.Lib, task: Task, call: Call, w: World): Checked {
    if Revoked(w.atRevocation, cfg.agentId, task.taskId) then Refused("agent_revoked", Buffer)
    else FromGate(cfg, lib, task, call, w)
  }

  function ApprovalReason(outcome: string): string {
    if outcome == "rejected" then "approval_rejected"
    else if outcome == "expired" then "approval_expired"
    else if outcome == "timeout" then "approval_timeout"
    else "approval_service_unavailable"
  }

  /** The client's redeem_approval: a reply without a grant id is a failed redemption. */
  function RedeemApproval(reply: Reply<string>): Result<string> {
    match Expect(reply, 200)
    case Returned(id) => if id == "" then ApiError(200) else Returned(id)
    case TransportError => TransportError
    case ApiError(code) => ApiError(code)
  }

  function RedeemReason(failure: Result<string>): string {
    if failure == ApiError(409) then "approval_replayed" else "approval_token_unavailable"
  }

  // ------------------------------------------------------- how a call ends

  function Refuse(cfg: Config, task: Task, call: Call, reason: string, sink: Sink): Ending {
    Ending(Denied(reason, sink.Disk?),
           if sink.Nowhere? then None else Some(Record(DeniedEvent(cfg, task.taskId, call, reason), sink.Disk?)))
  }

  function Execute(cfg: Config, task: Task, call: Call, w: World, failOpen: bool, grant: Option<string>): Ending {
    Ending(Ran(w.toolRaises), Some(Record(RanEvent(cfg, task.taskId, call, w, failOpen, grant), false)))
  }

  function AfterRedeem(cfg: Config, task: Task, call: Call, w: World): Ending {
    match RedeemApproval(w.redeem)
    case Returned(id) => Execute(cfg, task, call, w, false, Some(id))
    case failure => Refuse(cfg, task, call, RedeemReason(failure), Buffer)
  }

  function AfterPoll(cfg: Config, task: Task, call: Call, w: World, outcome: string): Ending {
    if outcome == "approved" then AfterRedeem(cfg, task, call, w)
    else Refuse(cfg, task, call, ApprovalReason(outcome), Buffer)
  }

  /** The outcome and the audit record of a call, from what the environment does during it. */
  ghost function Decide(cfg: Config, lib: Verify.Lib, task: Option<Task>, call: Call, w: World): Ending
    requires WorldOk(cfg, w)
  {
    if task.None? then Ending(Denied("no_task", false), None)
    else match Check(cfg, lib, task.value, call, w)
      case Refused(reason, sink) => Refuse(cfg, task.value, call, reason, sink)
      case Crashed => Ending(Escaped, None)
      case Proceed(failOpen) => Execute(cfg, task.value, call, w, failOpen, None)
      case NeedsApproval(_) =>
        AfterPoll(cfg, task.value, call, w, ApprovalPoll.Outcome(w.approval, cfg.timeout, cfg.interval))
  }

  // ------------------------------------------------------ the call performed

  /** The wrapped function; `runs` counts how often its body was entered. */
  class Tool {
    var runs: nat

    method Run(raises: bool) returns (raised: bool)
      modifies this
      ensures runs == old(runs) + 1 && raised == raises
    {
      runs := runs + 1;
      raised := raises;
    }
  }

  class Client {
    const cfg: Config
    const lib: Verify.Lib
    const logBuffer: LogBuffer<AuditEvent>
    const overflow: Overflow.OverflowWriter<AuditEvent>

    constructor (cfg: Config, lib: Verify.Lib, codec: Overflow.Codec<AuditEvent>, writable: bool, files: map<string, Overflow.File>)
      ensures this.cfg == cfg && this.lib == lib
      ensures fresh(logBuffer) && fresh(logBuffer.buf) && fresh(logBuffer.buf.data) && fresh(overflow)
      ensures logBuffer.Valid() && logBuffer.ring == Ring([], [], false) && overflow.State() == Overflow.Store(files, 0)
    {
      this.cfg, this.lib := cfg, lib;
      logBuffer := new LogBuffer<AuditEvent>();
      overflow := new Overflow.OverflowWriter<AuditEvent>(codec, cfg.agentId, writable, files);
    }

    /** Exactly this record was left behind, in its place, and nothing else changed there. */
    twostate predicate Left(record: Option<Record>, io: Overflow.WriteIo)
      requires old(logBuffer.Valid())
      reads logBuffer, logBuffer.buf, logBuffer.buf.data, overflow
    {
      && logBuffer.Valid() && logBuffer.buf.data == old(logBuffer.buf.data)
      && logBuffer.ring == (match record
                            case Some(Record(event, false)) => old(logBuffer.ring).Push(event)
                            case _ => old(logBuffer.ring))
      && overflow.State() == (match record
                              case Some(Record(event, true)) =>
                                if overflow.writable
                                then Overflow.Written(old(overflow.State()), overflow.agentId, overflow.codec.encode(event), io)
                                else old(overflow.State())
                              case _ => old(overflow.State()))
    }

    /** A failed preflight: deny and record on disk, or go on ungoverned if so configured. */
    method HandlePreflightUnreachable(task: Task, call: Call, w: World) returns (checked: Checked)
      requires logBuffer.Valid()
      modifies overflow
      ensures checked == if cfg.failMode.Closed? then Refused("sigil_unreachable", Disk) else Proceed(true)
      ensures Left(if cfg.failMode.Closed? then Refuse(cfg, task, call, "sigil_unreachable", Disk).record else None, w.io)
    {
      if cfg.failMode == Closed {
        overflow.Write(DeniedEvent(cfg, task.taskId, call, "sigil_unreachable"), w.io);
        return Refused("sigil_unreachable", Disk);
      }
      return Proceed(true);
    }

    method Deny(task: Task, call: Call, reason: string, ghost io: Overflow.WriteIo) returns (checked: Checked)
      requires logBuffer.Valid()
      modifies logBuffer, logBuffer.buf`start, logBuffer.buf`len, logBuffer.buf.data
      ensures checked == Refused(reason, Buffer)
      ensures Left(Refuse(cfg, task, call, reason, Buffer).record, io)
    {
      logBuffer.Push(DeniedEvent(cfg, task.taskId, call, reason));
      return Refused(reason, Buffer);
    }

    ghost function RecordOf(task: Task, call: Call, checked: Checked): Option<Record> {
      match checked
      case Refused(reason, sink) => Refuse(cfg, task, call, reason, sink).record
      case _ => None
    }

    method Preflight(task: Task, call: Call, w: World) returns (checked: Checked)
      requires logBuffer.Valid()
      modifies logBuffer, logBuffer.buf`start, logBuffer.buf`len, logBuffer.buf.data, overflow
      ensures checked == PreflightOutcome(cfg.failMode, w.preflight)
      ensures Left(RecordOf(task, call, checked), w.io)
    {
      match Expect<PreflightBody>(w.preflight, 200) {
        case Returned(NotAnObject) =>
          return Crashed;
        case Returned(Answer(verdict, deniedReason, approvalId)) =>
          var v := if verdict == "" then "deny" else verdict;
          if v == "deny" {
            checked := Deny(task, call, if deniedReason == "" then "policy_deny" else deniedReason, w.io);
          } else if v == "approve" {
            if approvalId == "" {
              checked := Deny(task, call, "approval_service_unavailable", w.io);
            } else {
              checked := NeedsApproval(approvalId);
            }
          } else if v != "allow" {
            checked := Deny(task, call, "unknown_verdict", w.io);
          } else {
            checked := Proceed(false);
          }
        case _ =>
          checked := HandlePreflightUnreachable(task, call, w);
      }
    }

    /** Steps 2 to 4 of a call, shared by the blocking and the async wrappers. */
    method GovernanceCheck(task: Task, call: Call, w: World) returns (checked: Checked)
      requires logBuffer.Valid()
      modifies logBuffer, logBuffer.buf`start, logBuffer.buf`len, logBuffer.buf.data, overflow
      ensures checked == Check(cfg, lib, task, call, w)
      ensures Left(RecordOf(task, call, checked), w.io)
    {
      if Revoked(w.atRevocation, cfg.agentId, task.taskId) {
        checked := Deny(task, call, "agent_revoked", w.io);
        return;
      }
      if cfg.killSwitchMode == Closed && !Healthy(w.atGate) {
        checked := Deny(task, call, "kill_switch_degraded", w.io);
        return;
      }
      if task.token.None? {
        return Refused("token_invalid", Nowhere);
      }
      AcceptedDoesNotRaise(cfg, lib, task, call, w);
      var vr := Verify.VerifyLocal(lib, RequestOf(cfg, call, w.now), task.token.value);
      match vr {
        case Raised =>
          return Crashed;
        case Denied(reason, _) =>
          checked := Deny(task, call, ReasonText(reason), w.io);
        case Ok(_) =>
          if HighRisk(call.tier) {
            checked := Preflight(task, call, w);
          } else {
            checked := Proceed(false);
          }
      }
    }

    /** Turns the outcome of the wait into a fall-through (None) or a recorded denial. */
    method FinalizeApproval(task: Task, call: Call, outcome: string, ghost io: Overflow.WriteIo) returns (denial: Option<Checked>)
      requires logBuffer.Valid()
      modifies logBuffer, logBuffer.buf`start, logBuffer.buf`len, logBuffer.buf.data
      ensures denial == if outcome == "approved" then None else Some(Refused(ApprovalReason(outcome), Buffer))
      ensures Left(if denial == None then None else RecordOf(task, call, denial.value), io)
    {
      if outcome == "approved" {
        return None;
      }
      var checked := Deny(task, call, ApprovalReason(outcome), io);
      return Some(checked);
    }

    /** Redeems an approval once: the id of the grant, or a recorded denial. */
    method Redeem(task: Task, call: Call, w: World) returns (grant: Option<string>, denial: Checked)
      requires logBuffer.Valid()
      modifies logBuffer, logBuffer.buf`start, logBuffer.buf`len, logBuffer.buf.data
      ensures grant.Some? <==> CarriesGrant(w.redeem)
      ensures grant.Some? ==> grant.value == w.redeem.body.value != ""
      ensures grant.None? ==> denial == Refused(RedeemReason(RedeemApproval(w.redeem)), Buffer)
      ensures Left(if grant.Some? then None else RecordOf(task, call, denial), w.io)
    {
      var result := RedeemApproval(w.redeem);
      if result.Returned? {
        return Some(result.value), Crashed;
      }
      grant := None;
      denial := Deny(task, call, RedeemReason(result), w.io);
    }

    /** Runs the tool; the event is recorded before control leaves, whether or not the tool raised. */
    method ExecuteAudit(task: Task, call: Call, tool: Tool, w: World, failOpen: bool, grant: Option<string>) returns (raised: bool)
      requires logBuffer.Valid()
      modifies tool, logBuffer, logBuffer.buf`start, logBuffer.buf`len, logBuffer.buf.data
      ensures tool.runs == old(tool.runs) + 1 && raised == w.toolRaises
      ensures Left(Execute(cfg, task, call, w, failOpen, grant).record, w.io)
    {
      raised := tool.Run(w.toolRaises);
      var outcome := if raised then "error" else "allowed";
      logBuffer.Push(AuditEvent(cfg.agentId, task.taskId, Fqn(call), call.namespace, call.argsHash, w.latencyMs, outcome,
                                call.tier, call.entropy, None, call.argsRedacted, failOpen, grant));
    }

    /** The part of the wrapper after an approval: redeem, and execute under the grant. */
    method InvokeUnderGrant(task: Task, call: Call, tool: Tool, w: World) returns (outcome: Outcome)
      requires logBuffer.Valid()
      modifies tool, logBuffer, logBuffer.buf`start, logBuffer.buf`len, logBuffer.buf.data
      ensures var ending := AfterRedeem(cfg, task, call, w);
              && outcome == ending.outcome && Left(ending.record, w.io)
              && tool.runs == old(tool.runs) + if outcome.Ran? then 1 else 0
    {
      var grant, refused := Redeem(task, call, w);
      if grant.None? {
        return Denied(refused.reason, false);
      }
      var raised := ExecuteAudit(task, call, tool, w, false, grant);
      return Ran(raised);
    }

    /** The part of the wrapper that waits for a human: poll, finalize, and go on under a grant. */
    method InvokeApproved(task: Task, call: Call, tool: Tool, w: World) returns (outcome: Outcome)
      requires logBuffer.Valid() && WorldOk(cfg, w)
      modifies tool, logBuffer, logBuffer.buf`start, logBuffer.buf`len, logBuffer.buf.data
      ensures var ending := AfterPoll(cfg, task, call, w, ApprovalPoll.Outcome(w.approval, cfg.timeout, cfg.interval));
              && outcome == ending.outcome && Left(ending.record, w.io)
              && tool.runs == old(tool.runs) + if outcome.Ran? then 1 else 0
    {
      var polled, n, _ := ApprovalPoll.PollApproval(w.approval, cfg.timeout, cfg.interval);
      ApprovalPoll.OutcomeIs(w.approval, cfg.timeout, cfg.interval, n, polled);
      var denial := FinalizeApproval(task, call, polled, w.io);
      if denial.Some? {
        return Denied(denial.value.reason, false);
      }
      outcome := InvokeUnderGrant(task, call, tool, w);
    }

    /** The blocking wrapper. */
    method Invoke(task: Option<Task>, call: Call, tool: Tool, w: World) returns (outcome: Outcome)
      requires logBuffer.Valid() && WorldOk(cfg, w)
      modifies tool, logBuffer, logBuffer.buf`start, logBuffer.buf`len, logBuffer.buf.data, overflow
      ensures outcome == Decide(cfg, lib, task, call, w).outcome
      ensures Left(Decide(cfg, lib, task, call, w).record, w.io)
      ensures tool.runs == old(tool.runs) + if MayExecute(cfg, lib, task, call, w) then 1 else 0
    {
      ExecutesExactlyWhenAllowed(cfg, lib, task, call, w);
      if task.None? {
        return Denied("no_task", false);
      }
      var checked := GovernanceCheck(task.value, call, w);
      match checked {
        case Refused(reason, sink) =>
          return Denied(reason, sink == Disk);
        case Crashed =>
          return Escaped;
        case NeedsApproval(_) =>
          outcome := InvokeApproved(task.value, call, tool, w);
        case Proceed(failOpen) =>
          var raised := ExecuteAudit(task.value, call, tool, w, failOpen, None);
          return Ran(raised);
      }
    }
  }

  // --------------------------------------------------------- what it promises

  lemma PollOutcomeApproved(cfg: Config, w: World)
    requires WorldOk(cfg, w)
    ensures ApprovalPoll.Outcome(w.approval, cfg.timeout, cfg.interval) == "approved" <==> Approved(cfg, w)
  {
    if Approved(cfg, w) {
      var n: nat :| ApprovalPoll.EndsWith(w.approval, cfg.timeout, cfg.interval, n, "approved");
      ApprovalPoll.OutcomeIs(w.approval, cfg.timeout, cfg.interval, n, "approved");
    }
  }

  /** The checks let a call through, or on to a human, exactly when the environment permits it. */
  lemma CheckMeaning(cfg: Config, lib: Verify.Lib, task: Task, call: Call, w: World)
    ensures var c := Check(cfg, lib, task, call, w);
            && (c.Proceed? <==>
                  && Cleared(cfg, lib, task, call, w)
                  && (!HighRisk(call.tier) || SaysAllow(w.preflight) || (!Reached(w.preflight) && cfg.failMode.Open?)))
            && (c.NeedsApproval? <==> Cleared(cfg, lib, task, call, w) && HighRisk(call.tier) && SaysApprove(w.preflight))
            && (c == Proceed(true) <==>
                  Cleared(cfg, lib, task, call, w) && HighRisk(call.tier) && !Reached(w.preflight) && cfg.failMode.Open?)
            && (c.Refused? && c.sink.Disk? <==>
                  Cleared(cfg, lib, task, call, w) && HighRisk(call.tier) && !Reached(w.preflight) && cfg.failMode.Closed?)
  {
    AcceptedDoesNotRaise(cfg, lib, task, call, w);
  }

  /** Fail-closed, in both directions: the tool runs exactly when the environment permits it. */
  lemma ExecutesExactlyWhenAllowed(cfg: Config, lib: Verify.Lib, task: Option<Task>, call: Call, w: World)
    requires WorldOk(cfg, w)
    ensures Decide(cfg, lib, task, call, w).outcome.Ran? <==> MayExecute(cfg, lib, task, call, w)
  {
    if task.Some? {
      CheckMeaning(cfg, lib, task.value, call, w);
      PollOutcomeApproved(cfg, w);
    }
  }

  /** The call found no task, no token, a token that makes the verifier raise, or an answer that is no object. */
  ghost predicate Unrecorded(cfg: Config, lib: Verify.Lib, task: Option<Task>, call: Call, w: World) {
    task.None? ||
    (&& !Revoked(w.atRevocation, cfg.agentId, task.value.taskId)
     && (cfg.killSwitchMode.Closed? ==> Healthy(w.atGate))
     && (|| task.value.token.None?
         || TokenRaises(cfg, lib, task.value, call, w)
         || (&& TokenAccepted(cfg, lib, task.value, call, w) && HighRisk(call.tier)
             && Reached(w.preflight) && w.preflight.body.value.NotAnObject?)))
  }

  /** Exactly the listed cases leave no record; only an unreachable core behind a closed fail mode leaves it on disk. */
  lemma RecordedExactlyWhen(cfg: Config, lib: Verify.Lib, task: Option<Task>, call: Call, w: World)
    requires WorldOk(cfg, w)
    ensures var e := Decide(cfg, lib, task, call, w);
            && (e.record.None? <==> Unrecorded(cfg, lib, task, call, w))
            && (e.record.Some? ==> (e.record.value.spilled <==> e.outcome.Denied? && e.outcome.unreachable))
            && (e.outcome.Denied? && e.outcome.unreachable <==>
                  && task.Some? && Cleared(cfg, lib, task.value, call, w) && HighRisk(call.tier)
                  && !Reached(w.preflight) && cfg.failMode.Closed?)
  {
    if task.Some? {
      CheckMeaning(cfg, lib, task.value, call, w);
      AcceptedDoesNotRaise(cfg, lib, task.value, call, w);
    }
  }

  /**
   The record tells what happened: who called what; "denied" with the reason given to the caller, or
   "allowed" or "error" by what the tool did; fail-open exactly when an unreachable core was ignored;
   a grant id exactly when a human approved, and then the one the server issued. Never both.
   */
  lemma RecordIsTruthful(cfg: Config, lib: Verify.Lib, task: Option<Task>, call: Call, w: World)
    requires WorldOk(cfg, w) && Decide(cfg, lib, task, call, w).record.Some?
    ensures var e := Decide(cfg, lib, task, call, w);
            var event := e.record.value.event;
            && task.Some? && event.agentId == cfg.agentId && event.taskId == task.value.taskId
            && event.tool == call.namespace + "." + call.name && event.namespace == call.namespace
            && event.tier == call.tier && event.argsHash == call.argsHash && event.argsRedacted == call.argsRedacted
            && event.latencyMs == (if e.outcome.Ran? then w.latencyMs else 0)
            && event.entropy == (if e.outcome.Ran? then call.entropy else 0.0)
            && !e.outcome.Escaped?
            && (e.outcome.Denied? <==> event.outcome == "denied")
            && (e.outcome.Denied? <==> event.deniedReason == Some(if e.outcome.Denied? then e.outcome.reason else ""))
            && (e.outcome == Ran(false) <==> event.outcome == "allowed")
            && (e.outcome == Ran(true) <==> event.outcome == "error")
            && (event.failOpen <==> e.outcome.Ran? && HighRisk(call.tier) && !Reached(w.preflight))
            && (event.grantId.Some? <==> e.outcome.Ran? && HighRisk(call.tier) && SaysApprove(w.preflight))
            && (event.grantId.Some? ==> CarriesGrant(w.redeem) && event.grantId == w.redeem.body && Approved(cfg, w))
            && !(event.failOpen && event.grantId.Some?)
  {
    CheckMeaning(cfg, lib, task.value, call, w);
    PollOutcomeApproved(cfg, w);
  }

  /** The two worlds agree on what a call can know without the network. */
  predicate SameAtHome(w: World, w': World) {
    && w'.atRevocation == w.atRevocation && w'.atGate == w.atGate && w'.now == w.now
    && w'.toolRaises == w.toolRaises && w'.latencyMs == w.latencyMs
  }

  /**
   A low-risk call, and any call that the local checks refuse, ends and is recorded the same whatever
   sigil-core, the approvers and the disk do: it does not depend on the network at all.
   */
  lemma LocalDecisionNeedsNoNetwork(cfg: Config, lib: Verify.Lib, task: Option<Task>, call: Call, w: World, w': World)
    requires WorldOk(cfg, w) && WorldOk(cfg, w') && SameAtHome(w, w')
    requires task.Some? ==> !HighRisk(call.tier) || !Cleared(cfg, lib, task.value, call, w)
    ensures Decide(cfg, lib, task, call, w) == Decide(cfg, lib, task, call, w')
  {
    if task.Some? {
      CheckMeaning(cfg, lib, task.value, call, w);
      SameChecksAtHome(cfg, lib, task.value, call, w, w');
    }
  }

  lemma SameChecksAtHome(cfg: Config, lib: Verify.Lib, task: Task, call: Call, w: World, w': World)
    requires SameAtHome(w, w') && (!HighRisk(call.tier) || !Cleared(cfg, lib, task, call, w))
    ensures Check(cfg, lib, task, call, w') == Check(cfg, lib, task, call, w)
  {
  }

  lemma ReasonOfRefusal(polled: string)
    requires polled in {"rejected", "expired", "timeout", "unavailable"}
    ensures ApprovalReason(polled) == if polled == "unavailable" then "approval_service_unavailable" else "approval_" + polled
  {
  }

  lemma AskedIsPolled(cfg: Config, lib: Verify.Lib, task: Task, call: Call, w: World)
    requires WorldOk(cfg, w) && Check(cfg, lib, task, call, w).NeedsApproval?
    ensures Decide(cfg, lib, Some(task), call, w)
            == AfterPoll(cfg, task, call, w, ApprovalPoll.Outcome(w.approval, cfg.timeout, cfg.interval))
  {
  }

  /** A human's refusal is reported by its own name, a missing answer as a missing service. */
  lemma RefusalIsReported(cfg: Config, lib: Verify.Lib, task: Task, call: Call, w: World, n: nat, polled: string)
    requires WorldOk(cfg, w) && Check(cfg, lib, task, call, w).NeedsApproval?
    requires ApprovalPoll.EndsWith(w.approval, cfg.timeout, cfg.interval, n, polled) && polled != "approved"
    ensures Decide(cfg, lib, Some(task), call, w).outcome
            == Denied(if polled == "unavailable" then "approval_service_unavailable" else "approval_" + polled, false)
  {
    ApprovalPoll.OutcomeIs(w.approval, cfg.timeout, cfg.interval, n, polled);
    ApprovalPoll.ApprovedMeansApproved(w.approval, cfg.timeout, cfg.interval, n, polled);
    ReasonOfRefusal(polled);
    AskedIsPolled(cfg, lib, task, call, w);
  }

  /** After an approval: a reply without a grant denies, and 409 is reported as a replay. */
  lemma FailedRedemptionIsReported(cfg: Config, lib: Verify.Lib, task: Task, call: Call, w: World)
    requires WorldOk(cfg, w) && Check(cfg, lib, task, call, w).NeedsApproval? && Approved(cfg, w)
    ensures var outcome := Decide(cfg, lib, Some(task), call, w).outcome;
            && (!CarriesGrant(w.redeem) <==> outcome.Denied?)
            && (w.redeem.Response? && w.redeem.code == 409 <==> outcome == Denied("approval_replayed", false))
  {
    PollOutcomeApproved(cfg, w);
    AskedIsPolled(cfg, lib, task, call, w);
  }
}
