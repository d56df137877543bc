/**
 What it takes to run a governed tool, and what a caller is told otherwise, from the letters of the call
 and the token, the keys, the kill-switch and the answers of the server: nothing here speaks in the
 terms of the checks that the call goes through.
 */
module Permission {
  import opened Wrappers
  import opened Http
  import opened Governance
  import opened TokenFacts
  import opened Attenuation
  import ApprovalPoll
  import Verify

  // -------------------------------------------------------- authority in a token

  /** Some fact of the block names this tool. */
  ghost predicate NamesTool(block: TokenBlock, tool: string) {
    exists i :: 0 <= i < |block.facts| && Argument(block.facts[i], "tool(") == Some(tool)
  }

  /** Before the expiry of the block, if it has one. */
  predicate InTime(lib: Verify.Lib, block: TokenBlock, now: int) {
    var e := BlockExpiry(block.checks, lib.parseTime);
    e.Some? ==> e.value.Aware? && now < e.value.t
  }

  /**
   What the token must be for this very call: signed by the key it names, or the active one, or one of
   the keyring; each block, from the first to the last, granting this tool by its full name and not
   expired; and the first block for the tenant of this client, if it has one.
   */
  ghost predicate HoldsAuthority(cfg: Config, lib: Verify.Lib, token: string, call: Call, now: int) {
    match Verify.ParseWire(token)
    case None => false
    case Some((payload, sig)) =>
      match lib.parseJson(payload)
      case Object(kid, Listed(blocks)) =>
        && blocks != []
        && SignedAsNamed(lib, cfg.keyring, if cfg.activeKid == "" then None else Some(cfg.activeKid), kid, payload, sig)
        && (forall b :: b in blocks ==> NamesTool(b, call.namespace + "." + call.name))
        && (forall b :: b in blocks ==> InTime(lib, b, now))
        && (cfg.tenantId != "" ==> LastArgument(blocks[0].facts, "tenant(") == Some(cfg.tenantId))
      case _ => false
  }

  lemma GrantsExactlyWhen(block: TokenBlock, tool: string)
    requires tool != ""
    ensures Verify.Grants(block, tool) <==> NamesTool(block, tool)
  {
    ToolNamesMeaning(block.facts, tool);
  }

  /** The verifier is asked for the right thing: it accepts a token exactly if it holds the authority for this call. */
  lemma TokenAcceptedExactlyWhen(cfg: Config, lib: Verify.Lib, task: Task, call: Call, w: World)
    ensures TokenAccepted(cfg, lib, task, call, w) <==> task.token.Some? && HoldsAuthority(cfg, lib, task.token.value, call, w.now)
  {
    if task.token.Some? && Verify.ParseWire(task.token.value).Some? {
      var token := task.token.value;
      var (payload, sig) := Verify.ParseWire(token).value;
      var json := lib.parseJson(payload);
      if json.Object? && json.raw.Listed? && json.raw.blocks != [] {
        AuthenticExactlyWhen(lib, RequestOf(cfg, call, w.now), token, payload, sig, json.kid, json.raw);
        BlocksAllowExactlyWhen(cfg, lib, call, w.now, json.raw.blocks);
      }
    }
  }

  lemma BlocksAllowExactlyWhen(cfg: Config, lib: Verify.Lib, call: Call, now: int, blocks: seq<TokenBlock>)
    requires blocks != []
    ensures Verify.Allows(lib, RequestOf(cfg, call, now), blocks) <==>
              && (forall b :: b in blocks ==> NamesTool(b, call.namespace + "." + call.name))
              && (forall b :: b in blocks ==> InTime(lib, b, now))
              && (cfg.tenantId != "" ==> LastArgument(blocks[0].facts, "tenant(") == Some(cfg.tenantId))
  {
    var tool := call.namespace + "." + call.name;
    forall b | b in blocks ensures Verify.Grants(b, tool) <==> NamesTool(b, tool) {
      GrantsExactlyWhen(b, tool);
    }
    forall b | b in blocks
      ensures InTime(lib, b, now)
              <==> (Verify.Expiry(lib, b).Some? ==> Verify.Expiry(lib, b).value.Aware? && now < Verify.Expiry(lib, b).value.t)
    {
    }
  }

  // ------------------------------------------------------------ the other conditions

  /** The kill-switch knows our agent or this task as revoked. */
  predicate Killed(ks: KillSwitch, agentId: string, taskId: string) {
    match ks
    case NoSubscriber(_) => false
    case Subscribed(registry, _) =>
      (agentId != "" && agentId in registry.reasons) || (taskId != "" && taskId in registry.reasons)
  }

  /** Revocations are wanted, cannot be received just now, and that is a reason to refuse. */
  predicate GateShut(cfg: Config, ks: KillSwitch) {
    cfg.killSwitchMode == Closed &&
    match ks case NoSubscriber(configured) => configured case Subscribed(_, connected) => !connected
  }

  /** The n-th answer is an approval, and all before it said to go on waiting. */
  ghost predicate ApprovedAt(w: ApprovalPoll.World, timeout: real, n: nat) {
    w.replies(n) == Response(200, Some("approved")) && forall i: nat :: i < n ==> ApprovalPoll.GoesOn(w, timeout, i)
  }

  ghost predicate HumanApproves(w: ApprovalPoll.World, timeout: real) {
    exists n: nat :: ApprovedAt(w, timeout, n)
  }

  lemma ApprovedExactlyWhen(cfg: Config, w: World)
    ensures Approved(cfg, w) <==> HumanApproves(w.approval, cfg.timeout)
  {
    if Approved(cfg, w) {
      var n: nat :| ApprovalPoll.EndsWith(w.approval, cfg.timeout, cfg.interval, n, "approved");
      ApprovalPoll.EndsExactlyWhen(w.approval, cfg.timeout, cfg.interval, n, "approved");
      assert ApprovedAt(w.approval, cfg.timeout, n - 1);
    }
    if HumanApproves(w.approval, cfg.timeout) {
      var n: nat :| ApprovedAt(w.approval, cfg.timeout, n);
      ApprovalPoll.EndsExactlyWhen(w.approval, cfg.timeout, cfg.interval, n + 1, "approved");
    }
  }

  /** The verdict in a preflight answer that can be read. */
  predicate Says(reply: Reply<PreflightBody>, verdict: string) {
    reply.Response? && reply.code == 200 && reply.body.Some? && reply.body.value.Answer? && reply.body.value.verdict == verdict
  }

  /** sigil-core cannot be asked: no reply, a bad status code or an unreadable body. */
  predicate CannotBeAsked(reply: Reply<PreflightBody>) {
    match reply case NoReply => true case Response(code, body) => code != 200 || body == None
  }

  /** The reply to a redemption issues a grant. */
  predicate GrantIssued(reply: Reply<string>) {
    match reply case NoReply => false case Response(code, body) => code == 200 && body.Some? && body != Some("")
  }

  /** For the two upper tiers, what it takes beyond the token: a yes from sigil-core, or from a human, or leave to go without. */
  ghost predicate CoreConsents(cfg: Config, w: World) {
    || Says(w.preflight, "allow")
    || (Says(w.preflight, "approve") && w.preflight.body.value.approvalId != ""
        && HumanApproves(w.approval, cfg.timeout) && GrantIssued(w.redeem))
    || (CannotBeAsked(w.preflight) && cfg.failMode == Open)
  }

  /**
   The whole condition for running a tool, read off the inputs: a task with a token that holds the
   authority for this call, nothing revoked, the kill-switch not known to be deaf, and for a high or
   critical tool the consent of sigil-core.
   */
  lemma RunsExactlyWhen(cfg: Config, lib: Verify.Lib, task: Option<Task>, call: Call, w: World)
    requires WorldOk(cfg, w)
    ensures Decide(cfg, lib, task, call, w).outcome.Ran? <==>
              && task.Some? && task.value.token.Some?
              && HoldsAuthority(cfg, lib, task.value.token.value, call, w.now)
              && !Killed(w.atRevocation, cfg.agentId, task.value.taskId)
              && !GateShut(cfg, w.atGate)
              && (call.tier in {Low, Med} || CoreConsents(cfg, w))
  {
    ExecutesExactlyWhenAllowed(cfg, lib, task, call, w);
    MayExecuteExactlyWhen(cfg, lib, task, call, w);
  }

  lemma MayExecuteExactlyWhen(cfg: Config, lib: Verify.Lib, task: Option<Task>, call: Call, w: World)
    ensures MayExecute(cfg, lib, task, call, w) <==>
              && task.Some? && task.value.token.Some?
              && HoldsAuthority(cfg, lib, task.value.token.value, call, w.now)
              && !Killed(w.atRevocation, cfg.agentId, task.value.taskId)
              && !GateShut(cfg, w.atGate)
              && (call.tier in {Low, Med} || CoreConsents(cfg, w))
  {
    if task.Some? {
      TokenAcceptedExactlyWhen(cfg, lib, task.value, call, w);
      ApprovedExactlyWhen(cfg, w);
      AnswersExactlyWhen(w);
    }
  }

  lemma AnswersExactlyWhen(w: World)
    ensures SaysAllow(w.preflight) <==> Says(w.preflight, "allow")
    ensures SaysApprove(w.preflight) <==> Says(w.preflight, "approve") && w.preflight.body.value.approvalId != ""
    ensures Reached(w.preflight) <==> !CannotBeAsked(w.preflight)
    ensures CarriesGrant(w.redeem) <==> GrantIssued(w.redeem)
  {
  }

  // ------------------------------------------------------------- minted tokens

  /** The task carries this minting on the wire. */
  ghost predicate Carries(lib: Verify.Lib, task: Task, m: Minting, payload: Verify.Bytes, sig: Verify.Bytes, kid: string) {
    IsMinted(lib, m, payload, sig, kid) && task.token == Some(Verify.Wire(payload, sig))
  }

  ghost predicate Signed(cfg: Config, lib: Verify.Lib, payload: Verify.Bytes, sig: Verify.Bytes, kid: string) {
    SignedAsNamed(lib, cfg.keyring, if cfg.activeKid == "" then None else Some(cfg.activeKid), kid, payload, sig)
  }

  ghost predicate AllUnexpired(lib: Verify.Lib, m: Minting, now: int) {
    forall l :: l in m.Layers() ==> Unexpired(lib, l.checks, now)
  }

  ghost predicate SomeZoneless(lib: Verify.Lib, m: Minting) {
    exists l :: l in m.Layers() && ExpiresZoneless(lib, l.checks)
  }

  /**
   From minting to execution: a call with a minted token, attenuated any number of times, runs its tool
   exactly if its own tool was minted and kept by every attenuation, the client's tenant is the minted
   one, nothing minted has expired, the signature is as named, the kill-switch does not object and, for
   the upper tiers, sigil-core consents.
   */
  lemma MintedCallRunsExactly(
    cfg: Config, lib: Verify.Lib, task: Task, call: Call, w: World, m: Minting, payload: Verify.Bytes, sig: Verify.Bytes, kid: string)
    requires WorldOk(cfg, w) && Carries(lib, task, m, payload, sig, kid)
    ensures Decide(cfg, lib, Some(task), call, w).outcome.Ran? <==>
              && Signed(cfg, lib, payload, sig, kid)
              && (forall l :: l in m.Layers() ==> call.namespace + "." + call.name in l.tools)
              && (cfg.tenantId == "" || cfg.tenantId == m.tenant)
              && AllUnexpired(lib, m, w.now)
              && !Killed(w.atRevocation, cfg.agentId, task.taskId)
              && !GateShut(cfg, w.atGate)
              && (call.tier in {Low, Med} || CoreConsents(cfg, w))
  {
    ExecutesExactlyWhenAllowed(cfg, lib, Some(task), call, w);
    MayExecuteExactlyWhen(cfg, lib, Some(task), call, w);
    TokenAcceptedExactlyWhen(cfg, lib, task, call, w);
    MintedTokenAcceptedExactly(lib, RequestOf(cfg, call, w.now), payload, sig, kid, m);
  }

  /**
   And if it does not run: what the caller of a low or medium tool is told. A revocation first, then a
   deaf kill-switch, a bad signature, an expired layer, the wrong tenant, a tool out of scope. Only an
   expiry without a time zone escapes as an exception.
   */
  lemma MintedCallEndsExactly(
    cfg: Config, lib: Verify.Lib, task: Task, call: Call, w: World, m: Minting, payload: Verify.Bytes, sig: Verify.Bytes, kid: string)
    requires WorldOk(cfg, w) && Carries(lib, task, m, payload, sig, kid) && call.tier in {Low, Med}
    ensures Decide(cfg, lib, Some(task), call, w).outcome ==
              if Killed(w.atRevocation, cfg.agentId, task.taskId) then Denied("agent_revoked", false)
              else if GateShut(cfg, w.atGate) then Denied("kill_switch_degraded", false)
              else if !Signed(cfg, lib, payload, sig, kid) then Denied("token_invalid", false)
              else if SomeZoneless(lib, m) then Escaped
              else if !AllUnexpired(lib, m, w.now) then Denied("task_expired", false)
              else if cfg.tenantId != "" && cfg.tenantId != m.tenant then Denied("tenant_mismatch", false)
              else if OutOfScope(m, call.namespace + "." + call.name) then Denied("tool_not_in_scope", false)
              else Ran(w.toolRaises)
  {
    MintedTokenVerdict(cfg, lib, task, call, w, m, payload, sig, kid);
    LocalChecks(cfg, lib, task, call, w);
  }

  ghost predicate OutOfScope(m: Minting, tool: string) {
    exists l :: l in m.Layers() && tool !in l.tools
  }

  /** What the verification of a minted token comes to. */
  lemma MintedTokenVerdict(
    cfg: Config, lib: Verify.Lib, task: Task, call: Call, w: World, m: Minting, payload: Verify.Bytes, sig: Verify.Bytes, kid: string)
    requires Carries(lib, task, m, payload, sig, kid)
    ensures FromVerify(cfg, lib, task, call, w) ==
              if !Signed(cfg, lib, payload, sig, kid) then Refused("token_invalid", Buffer)
              else if SomeZoneless(lib, m) then Crashed
              else if !AllUnexpired(lib, m, w.now) then Refused("task_expired", Buffer)
              else if cfg.tenantId != "" && cfg.tenantId != m.tenant then Refused("tenant_mismatch", Buffer)
              else if OutOfScope(m, call.namespace + "." + call.name) then Refused("tool_not_in_scope", Buffer)
              else FromPreflight(cfg, call, w)
  {
    var req := RequestOf(cfg, call, w.now);
    var token := task.token.value;
    MintedTokenAcceptedExactly(lib, req, payload, sig, kid, m);
    MintedTokenRaisesExactly(lib, req, payload, sig, kid, m);
    if Verify.Accepts(lib, req, token) {
      Verify.AcceptedDoesNotRaise(lib, req, token);
    } else if !Verify.Raises(lib, req, token) {
      MintedTokenDeniedFor(lib, req, payload, sig, kid, m);
      assert Verify.DenialOf(lib, req, token) in {Verify.TokenInvalid, Verify.TaskExpired, Verify.TenantMismatch, Verify.ToolNotInScope};
    }
  }

  /** The order of the local checks, and how a call that needs nobody's consent ends after them. */
  lemma LocalChecks(cfg: Config, lib: Verify.Lib, task: Task, call: Call, w: World)
    requires WorldOk(cfg, w) && call.tier in {Low, Med}
    ensures Decide(cfg, lib, Some(task), call, w).outcome ==
              if Killed(w.atRevocation, cfg.agentId, task.taskId) then Denied("agent_revoked", false)
              else if GateShut(cfg, w.atGate) then Denied("kill_switch_degraded", false)
              else match FromVerify(cfg, lib, task, call, w)
                case Refused(reason, sink) => Denied(reason, sink.Disk?)
                case Crashed => Escaped
                case _ => Ran(w.toolRaises)
  {
    assert FromPreflight(cfg, call, w) == Proceed(false);
  }

  /** The token is no token, or not one that a key it may be signed with has signed. */
  ghost predicate Forged(cfg: Config, lib: Verify.Lib, token: string) {
    match Verify.ParseWire(token)
    case None => true
    case Some((payload, sig)) =>
      match lib.parseJson(payload)
      case NotJson => true
      case NotAnObject => false
      case Object(kid, raw) => !raw.Listed? || raw.blocks == [] || !Signed(cfg, lib, payload, sig, kid)
  }

  /** Without a task, without a token, or with a forged one, nothing runs, and this is what the caller is told. */
  lemma NothingToShow(cfg: Config, lib: Verify.Lib, task: Task, call: Call, w: World)
    requires WorldOk(cfg, w) && !Killed(w.atRevocation, cfg.agentId, task.taskId) && !GateShut(cfg, w.atGate)
    ensures Decide(cfg, lib, None, call, w) == Ending(Denied("no_task", false), None)
    ensures task.token.None? || Forged(cfg, lib, task.token.value) ==>
              Decide(cfg, lib, Some(task), call, w).outcome == Denied("token_invalid", false)
  {
    if task.token.Some? {
      ForgedIsNotAuthentic(cfg, lib, task.token.value, RequestOf(cfg, call, w.now));
    }
  }

  lemma ForgedIsNotAuthentic(cfg: Config, lib: Verify.Lib, token: string, req: Verify.Request)
    requires req.keyring == cfg.keyring && req.activeKid == if cfg.activeKid == "" then None else Some(cfg.activeKid)
    ensures Forged(cfg, lib, token) ==> !Verify.Authentic(lib, req, token) && !Verify.Raises(lib, req, token)
  {
    if Verify.ParseWire(token).Some? {
      var (payload, sig) := Verify.ParseWire(token).value;
      var json := lib.parseJson(payload);
      if json.Object? {
        AuthenticExactlyWhen(lib, req, token, payload, sig, json.kid, json.raw);
      }
    }
  }

  // --------------------------------------------------- what sigil-core answers

  /**
   How a high or critical call ends once the local checks have passed, for every answer of sigil-core.
   Without a verdict a readable answer denies; an unreachable core denies or is ignored, as configured.
   */
  lemma CoreDecides(cfg: Config, lib: Verify.Lib, task: Task, call: Call, w: World)
    requires WorldOk(cfg, w) && task.token.Some? && HoldsAuthority(cfg, lib, task.token.value, call, w.now)
    requires !Killed(w.atRevocation, cfg.agentId, task.taskId) && !GateShut(cfg, w.atGate) && call.tier in {High, Critical}
    ensures var outcome := Decide(cfg, lib, Some(task), call, w).outcome;
            if CannotBeAsked(w.preflight) then
              outcome == if cfg.failMode == Open then Ran(w.toolRaises) else Denied("sigil_unreachable", true)
            else match w.preflight.body.value
              case NotAnObject => outcome == Escaped
              case Answer(verdict, reason, id) =>
                && (verdict == "allow" ==> outcome == Ran(w.toolRaises))
                && (verdict in {"", "deny"} ==> outcome == Denied(if reason == "" then "policy_deny" else reason, false))
                && (verdict == "approve" && id == "" ==> outcome == Denied("approval_service_unavailable", false))
                && (verdict == "approve" && id != "" && HumanApproves(w.approval, cfg.timeout) ==>
                      outcome == if GrantIssued(w.redeem) then Ran(w.toolRaises)
                                 else if w.redeem.Response? && w.redeem.code == 409 then Denied("approval_replayed", false)
                                 else Denied("approval_token_unavailable", false))
                && (verdict !in {"", "allow", "deny", "approve"} ==> outcome == Denied("unknown_verdict", false))
  {
    CallIsCleared(cfg, lib, task, call, w);
    ClearedGoesToCore(cfg, lib, task, call, w);
    AnswerMeans(cfg.failMode, w.preflight);
    if Says(w.preflight, "approve") && w.preflight.body.value.approvalId != "" && HumanApproves(w.approval, cfg.timeout) {
      ApprovedExactlyWhen(cfg, w);
      PollOutcomeApproved(cfg, w);
      RedemptionDecides(cfg, task, call, w);
    }
  }

  /** What each answer comes to. */
  lemma AnswerMeans(failMode: Mode, reply: Reply<PreflightBody>)
    ensures PreflightOutcome(failMode, reply) ==
              if CannotBeAsked(reply) then if failMode == Open then Proceed(true) else Refused("sigil_unreachable", Disk)
              else match reply.body.value
                case NotAnObject => Crashed
                case Answer(verdict, reason, id) =>
                  if verdict == "allow" then Proceed(false)
                  else if verdict in {"", "deny"} then Refused(if reason == "" then "policy_deny" else reason, Buffer)
                  else if verdict != "approve" then Refused("unknown_verdict", Buffer)
                  else if id == "" then Refused("approval_service_unavailable", Buffer)
                  else NeedsApproval(id)
  {
  }

  lemma RedemptionDecides(cfg: Config, task: Task, call: Call, w: World)
    ensures AfterRedeem(cfg, task, call, w).outcome ==
              if GrantIssued(w.redeem) then Ran(w.toolRaises)
              else if w.redeem.Response? && w.redeem.code == 409 then Denied("approval_replayed", false)
              else Denied("approval_token_unavailable", false)
  {
  }

  lemma CallIsCleared(cfg: Config, lib: Verify.Lib, task: Task, call: Call, w: World)
    requires task.token.Some? && HoldsAuthority(cfg, lib, task.token.value, call, w.now)
    requires !Killed(w.atRevocation, cfg.agentId, task.taskId) && !GateShut(cfg, w.atGate)
    ensures Cleared(cfg, lib, task, call, w)
  {
    TokenAcceptedExactlyWhen(cfg, lib, task, call, w);
  }

  lemma ClearedGoesToCore(cfg: Config, lib: Verify.Lib, task: Task, call: Call, w: World)
    requires Cleared(cfg, lib, task, call, w) && call.tier in {High, Critical}
    ensures Check(cfg, lib, task, call, w) == PreflightOutcome(cfg.failMode, w.preflight)
  {
    AcceptedDoesNotRaise(cfg, lib, task, call, w);
  }
}
