/**
 The kill-switch registry: a FIFO-bounded ordered map fed by an arbitrary stream
 of revocation messages.

 `Registry` and its functions are the specification. `RevocationSubscriber` updates
 its fields in place and is proved against them. The lemmas then compare the
 bounded registry with a reference that never forgets anything.
 */
module Revocation {

  const REVOKED_MAX: nat := 10_000

  /** An insertion-ordered dictionary: `order` lists the keys, oldest first. */
  datatype Registry = Registry(order: seq<string>, reasons: map<string, string>) {

    ghost predicate Valid() {
      && (forall k :: k in reasons <==> k in order)
      && (forall i, j :: 0 <= i < j < |order| ==> order[i] != order[j])
    }

    /** Assignment to a key: an existing key keeps its place, a new one goes last. */
    function Put(key: string, reason: string): Registry {
      Registry(if key in reasons then order else order + [key], reasons[key := reason])
    }

    function PopOldest(): Registry
      requires order != []
    {
      Registry(order[1..], reasons - {order[0]})
    }

    function EvictTo(cap: nat): Registry
      decreases |order|
    {
      if |order| > cap then PopOldest().EvictTo(cap) else this
    }

    function SetRevoked(key: string, reason: string, cap: nat): Registry {
      Put(key, reason).EvictTo(cap)
    }

    predicate IsRevoked(agentId: string, taskId: string) {
      (agentId != "" && agentId in reasons) || (taskId != "" && taskId in reasons)
    }
  }

  const EMPTY: Registry := Registry([], map[])

  /** A revocation payload; an absent field is the empty string. */
  datatype Payload = Payload(scope: string, reason: string, agentId: string, taskId: string, tenantId: string)

  /** What the channel delivers: a payload, or something that does not parse as one. */
  datatype Message = Garbage | Parsed(payload: Payload)

  /** Whom the subscriber works for, and how many keys it may remember. */
  datatype Config = Config(tenantId: string, agentId: string, cap: nat)

  function ReasonOf(p: Payload): string {
    if p.reason != "" then p.reason else "agent_revoked"
  }

  predicate TenantOk(cfg: Config, p: Payload) {
    p.tenantId == "" || p.tenantId == cfg.tenantId
  }

  function AfterPayload(cfg: Config, r: Registry, p: Payload): Registry {
    var reason := ReasonOf(p);
    if p.scope == "tenant" then
      if p.tenantId == cfg.tenantId && cfg.agentId != "" then r.SetRevoked(cfg.agentId, reason, cfg.cap) else r
    else if p.scope == "agent" then
      if p.agentId == cfg.agentId && TenantOk(cfg, p) then r.SetRevoked(p.agentId, reason, cfg.cap) else r
    else if p.scope == "task" || p.scope == "single" then
      if TenantOk(cfg, p) && p.agentId == cfg.agentId then
        var r' := if p.taskId != "" then r.SetRevoked(p.taskId, reason, cfg.cap) else r;
        r'.SetRevoked(p.agentId, reason, cfg.cap)
      else r
    else r
  }

  function AfterMessage(cfg: Config, r: Registry, m: Message): Registry {
    match m
    case Garbage => r
    case Parsed(p) => AfterPayload(cfg, r, p)
  }

  /** The registry after a whole stream of messages, starting empty. */
  function Run(cfg: Config, msgs: seq<Message>): Registry {
    if msgs == [] then EMPTY else AfterMessage(cfg, Run(cfg, msgs[..|msgs| - 1]), msgs[|msgs| - 1])
  }

  // ---------------------------------------------------------------- the class

  /** The part of the subscriber that is guarded by its lock. */
  class RevocationSubscriber {
    const cfg: Config
    var order: seq<string>
    var reasons: map<string, string>

    ghost function State(): Registry
      reads this
    {
      Registry(order, reasons)
    }

    constructor (cfg: Config)
      ensures this.cfg == cfg && State() == EMPTY && State().Valid()
    {
      this.cfg := cfg;
      order, reasons := [], map[];
    }

    method SetRevoked(key: string, reason: string)
      requires State().Valid()
      modifies this
      ensures State() == old(State()).SetRevoked(key, reason, cfg.cap)
      ensures State().Valid() && |order| <= cfg.cap
    {
      PutValid(State(), key, reason);
      if key !in reasons {
        order := order + [key];
      }
      reasons := reasons[key := reason];
      assert State() == old(State()).Put(key, reason);
      while |order| > cfg.cap
        invariant State().Valid()
        invariant State().EvictTo(cfg.cap) == old(State()).SetRevoked(key, reason, cfg.cap)
        decreases |order|
      {
        PopValid(State());
        order, reasons := order[1..], reasons - {order[0]};
      }
    }

    method Apply(p: Payload)
      requires State().Valid()
      modifies this
      ensures State() == AfterPayload(cfg, old(State()), p) && State().Valid()
    {
      var reason := ReasonOf(p);
      var tenantOk := TenantOk(cfg, p);
      if p.scope == "tenant" {
        if p.tenantId == cfg.tenantId && cfg.agentId != "" {
          SetRevoked(cfg.agentId, reason);
        }
      } else if p.scope == "agent" {
        if p.agentId == cfg.agentId && tenantOk {
          SetRevoked(p.agentId, reason);
        }
      } else if p.scope == "task" || p.scope == "single" {
        if tenantOk && p.agentId == cfg.agentId && p.taskId != "" {
          SetRevoked(p.taskId, reason);
        }
        if tenantOk && p.agentId == cfg.agentId {
          SetRevoked(p.agentId, reason);
        }
      }
    }

    /** One delivery of the channel; what does not parse is dropped. */
    method Receive(m: Message)
      requires State().Valid()
      modifies this
      ensures State() == AfterMessage(cfg, old(State()), m) && State().Valid()
    {
      match m {
        case Garbage =>
        case Parsed(p) => Apply(p);
      }
    }

    method IsRevoked(agentId: string, taskId: string) returns (revoked: bool)
      ensures revoked == State().IsRevoked(agentId, taskId)
    {
      if agentId != "" && agentId in reasons {
        return true;
      }
      return taskId != "" && taskId in reasons;
    }
  }

  // ------------------------------------------------- the ordered map is well kept

  lemma PutValid(r: Registry, key: string, reason: string)
    requires r.Valid()
    ensures r.Put(key, reason).Valid()
    ensures |r.Put(key, reason).order| <= |r.order| + 1
  {
    var r' := r.Put(key, reason);
    forall k ensures k in r'.reasons <==> k in r'.order {
      assert k in r.reasons <==> k in r.order;
    }
  }

  lemma PopValid(r: Registry)
    requires r.Valid() && r.order != []
    ensures r.PopOldest().Valid()
    ensures forall k :: k in r.PopOldest().reasons <==> k in r.reasons && k != r.order[0]
  {
    assert r.order == [r.order[0]] + r.order[1..];
    forall k ensures k in r.PopOldest().reasons <==> k in r.PopOldest().order {
      assert k in r.order <==> k == r.order[0] || k in r.order[1..];
    }
  }

  /** Eviction keeps the newest key, never invents one, and respects the cap. */
  lemma {:induction false} EvictToKeepsNewest(r: Registry, cap: nat)
    requires r.Valid() && cap >= 1
    ensures var e := r.EvictTo(cap);
            && e.Valid() && |e.order| <= cap
            && (forall k :: k in e.reasons ==> k in r.reasons)
            && (r.order != [] ==> r.order[|r.order| - 1] in e.reasons)
            && (|r.order| <= cap ==> e == r)
    decreases |r.order|
  {
    if |r.order| > cap {
      PopValid(r);
      EvictToKeepsNewest(r.PopOldest(), cap);
    }
  }

  function Excess(r: Registry, cap: nat): (k: nat)
    ensures k <= |r.order|
  {
    if |r.order| > cap then |r.order| - cap else 0
  }

  /** The oldest keys go first: what is left are the newest, in their order and with their reasons. */
  lemma {:induction false} EvictToIsSuffix(r: Registry, cap: nat)
    requires r.Valid()
    ensures var e := r.EvictTo(cap);
            && e.Valid() && e.order == r.order[Excess(r, cap)..]
            && forall key :: key in e.reasons ==> key in r.reasons && e.reasons[key] == r.reasons[key]
    decreases |r.order|
  {
    if |r.order| > cap {
      PopValid(r);
      EvictToIsSuffix(r.PopOldest(), cap);
      assert r.order[1..][Excess(r, cap) - 1..] == r.order[Excess(r, cap)..];
    }
  }

  /** One insertion at any cap of at least one: the key just set is present afterwards. */
  lemma SetRevokedKeeps(r: Registry, key: string, reason: string, cap: nat)
    requires r.Valid() && |r.order| <= cap && cap >= 1
    ensures var s := r.SetRevoked(key, reason, cap);
            && s.Valid() && |s.order| <= cap && key in s.reasons
            && (forall k :: k in s.reasons ==> k == key || k in r.reasons)
  {
    PutValid(r, key, reason);
    EvictToKeepsNewest(r.Put(key, reason), cap);
  }

  // ----------------------------------------------- comparison with a perfect memory

  /** The keys a message asks to revoke, by the scope rules alone. */
  function Touched(cfg: Config, m: Message): set<string> {
    match m
    case Garbage => {}
    case Parsed(p) =>
      if p.scope == "tenant" then
        if p.tenantId == cfg.tenantId && cfg.agentId != "" then {cfg.agentId} else {}
      else if p.scope in {"agent", "task", "single"} && p.agentId == cfg.agentId && TenantOk(cfg, p) then
        {cfg.agentId} + (if p.scope != "agent" && p.taskId != "" then {p.taskId} else {})
      else {}
  }

  /** A message that concerns our own agent. */
  predicate Relevant(cfg: Config, m: Message) {
    Touched(cfg, m) != {}
  }

  /** Every key any message has ever asked to revoke. */
  ghost function Ever(cfg: Config, msgs: seq<Message>): set<string> {
    set i, k | 0 <= i < |msgs| && k in Touched(cfg, msgs[i]) :: k
  }

  ghost predicate EverRevoked(cfg: Config, msgs: seq<Message>, taskId: string) {
    (cfg.agentId != "" && cfg.agentId in Ever(cfg, msgs)) || (taskId != "" && taskId in Ever(cfg, msgs))
  }

  /** The inductive fact: a registry that remembers anything remembers our own agent. */
  ghost predicate OwnAgentKept(cfg: Config, r: Registry) {
    r.Valid() && |r.order| <= cfg.cap && (r.order != [] ==> cfg.agentId in r.reasons)
  }

  lemma MessageKeepsOwnAgent(cfg: Config, r: Registry, m: Message)
    requires cfg.cap >= 1 && OwnAgentKept(cfg, r)
    ensures var r' := AfterMessage(cfg, r, m);
            && OwnAgentKept(cfg, r')
            && (Relevant(cfg, m) ==> cfg.agentId in r'.reasons)
            && (!Relevant(cfg, m) ==> r' == r)
            && (forall k :: k in r'.reasons ==> k in r.reasons || k in Touched(cfg, m))
  {
    if m.Parsed? {
      var p := m.payload;
      var reason := ReasonOf(p);
      if Relevant(cfg, m) {
        if p.scope != "tenant" && p.scope != "agent" && p.taskId != "" {
          SetRevokedKeeps(r, p.taskId, reason, cfg.cap);
          var r1 := r.SetRevoked(p.taskId, reason, cfg.cap);
          SetRevokedKeeps(r1, cfg.agentId, reason, cfg.cap);
        } else {
          SetRevokedKeeps(r, cfg.agentId, reason, cfg.cap);
        }
      }
    }
  }

  lemma EverStep(cfg: Config, msgs: seq<Message>)
    requires msgs != []
    ensures Ever(cfg, msgs) == Ever(cfg, msgs[..|msgs| - 1]) + Touched(cfg, msgs[|msgs| - 1])
  {
    var front := msgs[..|msgs| - 1];
    assert forall i :: 0 <= i < |front| ==> front[i] == msgs[i];
    forall k | k in Ever(cfg, msgs)
      ensures k in Ever(cfg, front) || k in Touched(cfg, msgs[|msgs| - 1])
    {
      var i :| 0 <= i < |msgs| && k in Touched(cfg, msgs[i]);
      assert i < |front| ==> k in Touched(cfg, front[i]);
    }
    forall k | k in Ever(cfg, front)
      ensures k in Ever(cfg, msgs)
    {
      var i :| 0 <= i < |front| && k in Touched(cfg, front[i]);
      assert k in Touched(cfg, msgs[i]);
    }
  }

  /** Every run keeps the invariant, and the registry is non-empty exactly when something touched it. */
  lemma {:induction false} RunKeepsOwnAgent(cfg: Config, msgs: seq<Message>)
    requires cfg.cap >= 1
    ensures OwnAgentKept(cfg, Run(cfg, msgs))
    ensures forall k :: k in Run(cfg, msgs).reasons ==> k in Ever(cfg, msgs)
    ensures Ever(cfg, msgs) != {} ==> cfg.agentId in Run(cfg, msgs).reasons
  {
    if msgs != [] {
      var front, last := msgs[..|msgs| - 1], msgs[|msgs| - 1];
      RunKeepsOwnAgent(cfg, front);
      MessageKeepsOwnAgent(cfg, Run(cfg, front), last);
      EverStep(cfg, msgs);
      if Ever(cfg, msgs) != {} && !Relevant(cfg, last) {
        assert Ever(cfg, front) != {};
      }
    }
  }

  /**
   The registry answers the SDK's question as an unbounded history would: for our own
   agent and any task it says "revoked" exactly when some relevant message ever arrived.
   */
  lemma BoundedAgreesWithHistory(cfg: Config, msgs: seq<Message>, taskId: string)
    requires cfg.cap >= 1 && cfg.agentId != ""
    ensures Run(cfg, msgs).IsRevoked(cfg.agentId, taskId) <==> EverRevoked(cfg, msgs, taskId)
    ensures Run(cfg, msgs).IsRevoked(cfg.agentId, taskId)
            <==> exists i :: 0 <= i < |msgs| && Relevant(cfg, msgs[i])
  {
    RunKeepsOwnAgent(cfg, msgs);
    if exists i :: 0 <= i < |msgs| && Relevant(cfg, msgs[i]) {
      var i :| 0 <= i < |msgs| && Relevant(cfg, msgs[i]);
      assert cfg.agentId in Touched(cfg, msgs[i]);
      assert cfg.agentId in Ever(cfg, msgs);
    } else {
      assert Ever(cfg, msgs) == {};
    }
  }

  // ------------------------------------------- whom a message concerns, field by field

  /**
   Whom a payload concerns, said of its fields alone. A tenant is revoked by its own id. An agent, with
   or without a task, is revoked by its own id and by no other tenant: the tenant id is ours or absent.
   */
  predicate ConcernsUs(cfg: Config, p: Payload) {
    || (p.scope == "tenant" && p.tenantId == cfg.tenantId && cfg.agentId != "")
    || (&& p.scope in {"agent", "task", "single"}
        && p.agentId == cfg.agentId && p.tenantId in {"", cfg.tenantId})
  }

  lemma RelevantExactlyWhen(cfg: Config, m: Message)
    ensures Relevant(cfg, m) <==> m.Parsed? && ConcernsUs(cfg, m.payload)
  {
    if m.Parsed? && ConcernsUs(cfg, m.payload) {
      assert cfg.agentId in Touched(cfg, m);
    }
  }

  /** What a payload that concerns us revokes: our agent and, for a task or a single call, the task it names. */
  lemma TouchedExactly(cfg: Config, p: Payload)
    ensures ConcernsUs(cfg, p) ==>
              Touched(cfg, Parsed(p))
              == {cfg.agentId} + (if p.scope in {"task", "single"} && p.taskId != "" then {p.taskId} else {})
    ensures !ConcernsUs(cfg, p) ==> Touched(cfg, Parsed(p)) == {}
  {
    RelevantExactlyWhen(cfg, Parsed(p));
  }

  /**
   The kill-switch over every stream of messages: our agent is revoked, under whatever task, exactly
   when some payload concerned it. Neither garbage nor the revocations of others count.
   */
  lemma RevokedExactlyWhen(cfg: Config, msgs: seq<Message>, taskId: string)
    requires cfg.cap >= 1 && cfg.agentId != ""
    ensures Run(cfg, msgs).IsRevoked(cfg.agentId, taskId)
            <==> exists i :: 0 <= i < |msgs| && msgs[i].Parsed? && ConcernsUs(cfg, msgs[i].payload)
  {
    BoundedAgreesWithHistory(cfg, msgs, taskId);
    forall i | 0 <= i < |msgs| ensures Relevant(cfg, msgs[i]) <==> msgs[i].Parsed? && ConcernsUs(cfg, msgs[i].payload) {
      RelevantExactlyWhen(cfg, msgs[i]);
    }
  }

  /** No payload that names another tenant, or another agent, changes anything. */
  lemma OthersChangeNothing(cfg: Config, r: Registry, p: Payload)
    requires cfg.cap >= 1 && OwnAgentKept(cfg, r)
    requires p.tenantId !in {"", cfg.tenantId} || (p.scope != "tenant" && p.agentId != cfg.agentId)
    ensures AfterMessage(cfg, r, Parsed(p)) == r
  {
    RelevantExactlyWhen(cfg, Parsed(p));
    MessageKeepsOwnAgent(cfg, r, Parsed(p));
  }

  /** A payload that concerns us leaves its reason with our agent, or the general one if it gives none. */
  lemma ReasonIsKept(cfg: Config, r: Registry, p: Payload)
    requires cfg.cap >= 1 && OwnAgentKept(cfg, r) && ConcernsUs(cfg, p)
    ensures var r' := AfterMessage(cfg, r, Parsed(p));
            cfg.agentId in r'.reasons && r'.reasons[cfg.agentId] == if p.reason == "" then "agent_revoked" else p.reason
  {
    MessageKeepsOwnAgent(cfg, r, Parsed(p));
    RelevantExactlyWhen(cfg, Parsed(p));
    var reason := ReasonOf(p);
    if p.scope in {"task", "single"} && p.taskId != "" {
      SetRevokedKeeps(r, p.taskId, reason, cfg.cap);
      LastReason(r.SetRevoked(p.taskId, reason, cfg.cap), cfg.agentId, reason, cfg.cap);
    } else {
      LastReason(r, cfg.agentId, reason, cfg.cap);
    }
  }

  lemma LastReason(r: Registry, key: string, reason: string, cap: nat)
    requires r.Valid() && |r.order| <= cap && cap >= 1
    ensures var s := r.SetRevoked(key, reason, cap);
            key in s.reasons && s.reasons[key] == reason
  {
    SetRevokedKeeps(r, key, reason, cap);
    PutValid(r, key, reason);
    EvictToIsSuffix(r.Put(key, reason), cap);
  }

  lemma NewerIsKept(r: Registry, cap: nat, i: nat)
    requires r.Valid() && Excess(r, cap) <= i < |r.order|
    ensures r.order[i] in r.EvictTo(cap).reasons
  {
    EvictToIsSuffix(r, cap);
    assert r.order[Excess(r, cap)..][i - Excess(r, cap)] == r.order[i];
  }

  lemma NewKeyIsLast(r: Registry, key: string, reason: string, cap: nat)
    requires r.Valid() && cap >= 1 && key !in r.reasons
    ensures var order := r.SetRevoked(key, reason, cap).order;
            order != [] && order[|order| - 1] == key
  {
    PutValid(r, key, reason);
    EvictToIsSuffix(r.Put(key, reason), cap);
  }

  lemma NothingIsEvicted(r: Registry, key: string, reason: string, cap: nat)
    requires r.Valid() && |r.order| <= cap && key in r.reasons
    ensures r.SetRevoked(key, reason, cap) == r.Put(key, reason)
  {
  }

  lemma NewestStays(r: Registry, key: string, reason: string, cap: nat)
    requires r.Valid() && 0 < |r.order| <= cap && cap >= 2
    ensures r.order[|r.order| - 1] in r.SetRevoked(key, reason, cap).reasons
  {
    PutValid(r, key, reason);
    NewerIsKept(r.Put(key, reason), cap, |r.order| - 1);
  }

  /** A key that was just set is still there after another one is set, if there is room for two. */
  lemma BothAreKept(r: Registry, first: string, second: string, reason: string, cap: nat)
    requires r.Valid() && |r.order| <= cap && cap >= 2
    requires r.order != [] ==> second in r.reasons
    ensures first in r.SetRevoked(first, reason, cap).SetRevoked(second, reason, cap).reasons
  {
    SetRevokedKeeps(r, first, reason, cap);
    if first in r.reasons {
      NothingIsEvicted(r, first, reason, cap);
      NothingIsEvicted(r.Put(first, reason), second, reason, cap);
    } else {
      NewKeyIsLast(r, first, reason, cap);
      NewestStays(r.SetRevoked(first, reason, cap), second, reason, cap);
    }
  }

  /** With room for two keys, the task that is named is revoked as well, for whoever asks. */
  lemma TaskIsRevokedToo(cfg: Config, r: Registry, p: Payload, anyone: string)
    requires cfg.cap >= 2 && OwnAgentKept(cfg, r) && ConcernsUs(cfg, p)
    requires p.scope in {"task", "single"} && p.taskId != ""
    ensures AfterMessage(cfg, r, Parsed(p)).IsRevoked(anyone, p.taskId)
  {
    BothAreKept(r, p.taskId, cfg.agentId, ReasonOf(p), cfg.cap);
  }

  /** No later message, and no flood of them, lifts a revocation of our own agent. */
  lemma FloodCannotUnrevoke(cfg: Config, msgs: seq<Message>, more: seq<Message>, taskId: string)
    requires cfg.cap >= 1 && cfg.agentId != ""
    requires Run(cfg, msgs).IsRevoked(cfg.agentId, taskId)
    ensures Run(cfg, msgs + more).IsRevoked(cfg.agentId, taskId)
  {
    BoundedAgreesWithHistory(cfg, msgs, taskId);
    BoundedAgreesWithHistory(cfg, msgs + more, taskId);
    var i :| 0 <= i < |msgs| && Relevant(cfg, msgs[i]);
    assert (msgs + more)[i] == msgs[i];
  }

  // ------------------------------------- an agent without an id is not protected

  ghost function TaskName(n: nat): (name: string)
    ensures |name| == n
  {
    seq(n, _ => 'a')
  }

  ghost function TaskRevocation(n: nat): Message {
    Parsed(Payload("task", "", "", TaskName(n), ""))
  }

  /** `n` task revocations with pairwise different, non-empty task ids and no agent id. */
  ghost function Flood(n: nat): (msgs: seq<Message>)
    ensures |msgs| == n
  {
    if n == 0 then [] else Flood(n - 1) + [TaskRevocation(n)]
  }

  lemma FloodGrows(cfg: Config, n: nat)
    requires cfg.agentId == "" && n >= 1
    ensures Ever(cfg, Flood(n)) == Ever(cfg, Flood(n - 1)) + {"", TaskName(n)}
  {
    var f := Flood(n);
    assert f[..n - 1] == Flood(n - 1) && f[n - 1] == TaskRevocation(n);
    assert Touched(cfg, TaskRevocation(n)) == {"", TaskName(n)};
    EverStep(cfg, f);
  }

  lemma {:induction false} FloodTouches(cfg: Config, n: nat)
    requires cfg.agentId == "" && n >= 1
    ensures |Ever(cfg, Flood(n))| == n + 1 && "" in Ever(cfg, Flood(n))
    ensures forall k :: k in Ever(cfg, Flood(n)) ==> |k| <= n
  {
    FloodGrows(cfg, n);
    var name := TaskName(n);
    var before := Ever(cfg, Flood(n - 1));
    if n == 1 {
      assert before == {};
      assert before + {"", name} == {"", name};
    } else {
      FloodTouches(cfg, n - 1);
      assert name !in before;
      assert before + {"", name} == before + {name};
    }
  }

  lemma KeysBounded(r: Registry, cap: nat)
    requires r.Valid() && |r.order| <= cap
    ensures |r.reasons.Keys| <= cap
  {
    OrderCovers(r.order, r.reasons.Keys);
  }

  lemma {:induction false} OrderCovers(order: seq<string>, keys: set<string>)
    requires forall k :: k in keys ==> k in order
    ensures |keys| <= |order|
  {
    if order == [] {
      assert keys == {};
    } else {
      assert forall k :: k in order ==> k == order[0] || k in order[1..];
      OrderCovers(order[1..], keys - {order[0]});
    }
  }

  /** With no agent id, a flood as long as the cap makes the registry forget a task it once revoked. */
  lemma EmptyAgentForgets(cfg: Config) returns (taskId: string)
    requires cfg.cap >= 1 && cfg.agentId == ""
    ensures EverRevoked(cfg, Flood(cfg.cap), taskId)
    ensures !Run(cfg, Flood(cfg.cap)).IsRevoked(cfg.agentId, taskId)
  {
    var msgs := Flood(cfg.cap);
    RunKeepsOwnAgent(cfg, msgs);
    FloodTouches(cfg, cfg.cap);
    var kept := Run(cfg, msgs).reasons.Keys;
    KeysBounded(Run(cfg, msgs), cfg.cap);
    if Ever(cfg, msgs) <= kept {
      SubsetSize(Ever(cfg, msgs), kept);
    }
    taskId :| taskId in Ever(cfg, msgs) && taskId !in kept;
  }

  lemma {:induction false} SubsetSize(a: set<string>, b: set<string>)
    requires a <= b
    ensures |a| <= |b|
  {
    assert b == a + (b - a);
  }

  ghost predicate AgreesOnEveryStream(cfg: Config) {
    forall msgs, taskId ::
      EverRevoked(cfg, msgs, taskId) <==> Run(cfg, msgs).IsRevoked(cfg.agentId, taskId)
  }

  /** The bounded registry is as good as a perfect memory exactly for a non-empty agent id. */
  lemma AgreementNeedsAnAgentId(cfg: Config)
    requires cfg.cap >= 1
    ensures AgreesOnEveryStream(cfg) <==> cfg.agentId != ""
  {
    if cfg.agentId == "" {
      var taskId := EmptyAgentForgets(cfg);
      assert EverRevoked(cfg, Flood(cfg.cap), taskId) && !Run(cfg, Flood(cfg.cap)).IsRevoked(cfg.agentId, taskId);
    } else {
      forall msgs, taskId
        ensures EverRevoked(cfg, msgs, taskId) <==> Run(cfg, msgs).IsRevoked(cfg.agentId, taskId)
      {
        BoundedAgreesWithHistory(cfg, msgs, taskId);
      }
    }
  }
}
