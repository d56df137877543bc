/**
 Local token verification: from the wire string to an allow or deny, with no network.

 Cryptography, JSON and timestamp parsing are parameters (`Lib`); nothing is assumed about them.
 `VerifyLocal` and its loops are proved against the declarative predicates above them, which speak
 of all blocks and all keys at once.
 */
module Verify {
  import opened Wrappers
  import opened Base64Url
  import opened TokenFacts

  type Bytes = seq<byte>

  /** The blocks of a parsed payload: absent or empty, not of the expected shape, or a list. */
  datatype RawBlocks = Absent | Malformed | Listed(blocks: seq<TokenBlock>)

  /** A parsed payload; a `kid` that is absent or null is the empty string. */
  datatype Json = NotJson | NotAnObject | Object(kid: string, raw: RawBlocks)

  datatype Lib = Lib(
    parseJson: Bytes -> Json,
    verifies: (Bytes, Bytes, Bytes) -> bool,   // key, payload, signature; false for an unusable key
    parseTime: string -> Option<Time>)

  datatype Request = Request(
    keyring: map<string, Bytes>,
    activeKid: Option<string>,
    requiredTool: Option<string>,
    expectedTenant: Option<string>,
    now: int)

  datatype Reason = TokenInvalid | TaskExpired | TenantMismatch | ToolNotInScope

  /** What a result object says about the token, as far as the verifier got. */
  datatype Claims = Claims(
    tools: set<string>, tenantId: Option<string>, agentId: Option<string>, taskId: Option<string>, expiresAt: Option<int>)

  const NO_CLAIMS: Claims := Claims({}, None, None, None, None)

  /** The result object, or an exception that escapes the verifier. */
  datatype Verdict = Ok(claims: Claims) | Denied(reason: Reason, claims: Claims) | Raised

  // ---------------------------------------------------------- the wire format

  /** Everything before the first dot; None without a dot. */
  function DotPosition(token: string): (i: Option<nat>)
    ensures i.Some? ==> i.value < |token| && token[i.value] == '.' && '.' !in token[..i.value]
    ensures i.None? ==> '.' !in token
  {
    if token == [] then None
    else if token[0] == '.' then Some(0)
    else match DotPosition(token[1..]) case None => None case Some(i) => Some(i + 1)
  }

  /** Payload and signature of a token, when it splits and both halves decode. */
  function ParseWire(token: string): Option<(Bytes, Bytes)> {
    match DotPosition(token)
    case None => None
    case Some(i) =>
      var payload, sig := token[..i], token[i + 1..];
      if payload == "" || sig == "" then None
      else match (Decode(payload), Decode(sig))
           case (Some(p), Some(s)) => Some((p, s))
           case _ => None
  }

  function Wire(payload: Bytes, sig: Bytes): string {
    Encode(payload) + "." + Encode(sig)
  }

  lemma {:induction false} FirstDot(a: string, b: string)
    requires '.' !in a
    ensures DotPosition(a + "." + b) == Some(|a|)
  {
    var token := a + "." + b;
    if a != [] {
      assert token[1..] == a[1..] + "." + b;
      FirstDot(a[1..], b);
    }
  }

  /** Splitting and decoding give back what was signed and its signature, whatever the bytes. */
  lemma WireRoundTrip(payload: Bytes, sig: Bytes)
    requires payload != [] && sig != []
    ensures ParseWire(Wire(payload, sig)) == Some((payload, sig))
  {
    EncodeShape(payload);
    EncodeShape(sig);
    FirstDot(Encode(payload), Encode(sig));
    DecodeInvertsEncode(payload);
    DecodeInvertsEncode(sig);
    var token := Wire(payload, sig);
    assert token[..|Encode(payload)|] == Encode(payload);
    assert token[|Encode(payload)| + 1..] == Encode(sig);
  }

  // ------------------------------------------------------------ authenticity

  /** The keys a token may be signed with: its named key; else the active key; else any key. */
  function AllowedKeys(keyring: map<string, Bytes>, kid: string, activeKid: Option<string>): set<Bytes> {
    if kid != "" then if kid in keyring then {keyring[kid]} else {}
    else if activeKid.Some? then if activeKid.value in keyring then {keyring[activeKid.value]} else {}
    else keyring.Values
  }

  ghost predicate SignedBySome(lib: Lib, keys: set<Bytes>, payload: Bytes, sig: Bytes) {
    exists key :: key in keys && lib.verifies(key, payload, sig)
  }

  /** The token is well-formed, carries blocks, and some allowed key signed its very bytes. */
  ghost predicate Authentic(lib: Lib, req: Request, token: string) {
    match ParseWire(token)
    case None => false
    case Some((payload, sig)) =>
      match lib.parseJson(payload)
      case Object(kid, Listed(blocks)) =>
        blocks != [] && SignedBySome(lib, AllowedKeys(req.keyring, kid, req.activeKid), payload, sig)
      case _ => false
  }

  ghost function BlocksOf(lib: Lib, token: string): seq<TokenBlock> {
    match ParseWire(token)
    case None => []
    case Some((payload, _)) =>
      match lib.parseJson(payload)
      case Object(_, Listed(blocks)) => blocks
      case _ => []
  }

  method FindKey(lib: Lib, keys: set<Bytes>, payload: Bytes, sig: Bytes) returns (verified: bool)
    ensures verified <==> SignedBySome(lib, keys, payload, sig)
  {
    var left := keys;
    verified := false;
    while left != {}
      invariant left <= keys
      invariant forall key :: key in keys - left ==> !lib.verifies(key, payload, sig)
      decreases left
    {
      var key :| key in left;
      if lib.verifies(key, payload, sig) {
        return true;
      }
      left := left - {key};
    }
  }

  // ------------------------------------------------------- what blocks grant

  ghost predicate Grants(block: TokenBlock, tool: string) {
    tool in ToolNames(block.facts)
  }

  /** A tool is in scope when every block grants it. */
  ghost predicate InScope(blocks: seq<TokenBlock>, tool: string) {
    blocks != [] && forall b :: b in blocks ==> Grants(b, tool)
  }

  method ComputeEffectiveTools(blocks: seq<TokenBlock>) returns (effective: set<string>)
    ensures forall tool :: tool in effective <==> InScope(blocks, tool)
  {
    if blocks == [] {
      return {};
    }
    var names := ExtractToolNames(blocks[0].facts);
    effective := set t | t in names;
    for i := 1 to |blocks|
      invariant forall tool :: tool in effective <==> forall j :: 0 <= j < i ==> Grants(blocks[j], tool)
    {
      names := ExtractToolNames(blocks[i].facts);
      effective := effective * set t | t in names;
    }
  }

  function Expiry(lib: Lib, block: TokenBlock): Option<Time> {
    BlockExpiry(block.checks, lib.parseTime)
  }

  /** The expiry as a point in time; None for a block without one. */
  function Deadline(lib: Lib, block: TokenBlock): Option<int> {
    match Expiry(lib, block) case Some(Aware(t)) => Some(t) case _ => None
  }

  predicate HasNaive(lib: Lib, block: TokenBlock) {
    Expiry(lib, block).Some? && Expiry(lib, block).value.Naive?
  }

  /** Some block expires at a timestamp without a time zone, which cannot be compared with the current time. */
  ghost predicate Zoneless(lib: Lib, blocks: seq<TokenBlock>) {
    exists b :: b in blocks && HasNaive(lib, b)
  }

  /** The time is before the expiry of every block that has one. */
  ghost predicate Fresh(lib: Lib, blocks: seq<TokenBlock>, now: int) {
    forall b :: b in blocks && Expiry(lib, b).Some? ==> Expiry(lib, b).value.Aware? && now < Expiry(lib, b).value.t
  }

  /** The earliest of the blocks' expiries; None stands for never. */
  ghost predicate IsEarliest(lib: Lib, blocks: seq<TokenBlock>, e: Option<int>) {
    && (forall b :: b in blocks && Deadline(lib, b).Some? ==> e.Some? && e.value <= Deadline(lib, b).value)
    && (e.Some? ==> exists b :: b in blocks && Deadline(lib, b) == e)
  }

  /** What the scan of some blocks has found: nothing, an earliest expiry, or one without a time zone. */
  ghost predicate Found(lib: Lib, blocks: seq<TokenBlock>, result: Option<Time>) {
    match result
    case None => forall b :: b in blocks ==> Expiry(lib, b) == None
    case Some(Aware(t)) => !Zoneless(lib, blocks) && IsEarliest(lib, blocks, Some(t))
    case Some(Naive(_)) => Zoneless(lib, blocks)
  }

  lemma FoundMore(lib: Lib, blocks: seq<TokenBlock>, block: TokenBlock, result: Option<Time>)
    requires Found(lib, blocks, result)
    ensures var all := blocks + [block];
            && (Expiry(lib, block).None? ==> Found(lib, all, result))
            && (HasNaive(lib, block) ==> Zoneless(lib, all))
            && (result.Some? && result.value.Naive? ==> Zoneless(lib, all))
  {
    var all := blocks + [block];
    assert block in all && (forall b :: b in blocks ==> b in all) && (forall b :: b in all ==> b in blocks || b == block);
    if result.Some? && result.value.Aware? {
      var b :| b in blocks && Deadline(lib, b) == Some(result.value.t);
      assert b in all;
    }
  }

  lemma FoundEarlier(lib: Lib, blocks: seq<TokenBlock>, block: TokenBlock, result: Option<Time>)
    requires Found(lib, blocks, result) && (result.Some? ==> result.value.Aware?)
    requires Expiry(lib, block).Some? && Expiry(lib, block).value.Aware?
    ensures var e := Expiry(lib, block);
            Found(lib, blocks + [block], if result.None? || e.value.t < result.value.t then e else result)
  {
    var all := blocks + [block];
    assert block in all && (forall b :: b in blocks ==> b in all) && (forall b :: b in all ==> b in blocks || b == block);
    assert Deadline(lib, block) == Some(Expiry(lib, block).value.t);
    if result.Some? {
      var b :| b in blocks && Deadline(lib, b) == Some(result.value.t);
      assert b in all;
    }
  }

  /** The scan, which raises when it has to compare an expiry with a time zone to one without. */
  method MostRestrictiveExpiry(lib: Lib, blocks: seq<TokenBlock>) returns (raised: bool, result: Option<Time>)
    ensures raised ==> Zoneless(lib, blocks)
    ensures !raised ==> Found(lib, blocks, result)
  {
    raised, result := false, None;
    for i := 0 to |blocks|
      invariant !raised && Found(lib, blocks[..i], result)
    {
      var exp := ParseExpiry(blocks[i].checks, lib.parseTime);
      assert exp == Expiry(lib, blocks[i]);
      assert blocks[..i + 1] == blocks[..i] + [blocks[i]];
      FoundMore(lib, blocks[..i], blocks[i], result);
      if exp.Some? {
        if result.Some? && exp.value.Aware? != result.value.Aware? {
          ghost var b :| b in blocks[..i + 1] && HasNaive(lib, b);
          assert b in blocks;
          return true, result;
        }
        if exp.value.Aware? {
          FoundEarlier(lib, blocks[..i], blocks[i], result);
        }
        if result.None? || exp.value.t < result.value.t {
          result := exp;
        }
      }
    }
    assert blocks[..|blocks|] == blocks;
  }

  lemma EarliestIsUnique(lib: Lib, blocks: seq<TokenBlock>, d: Option<int>, e: Option<int>)
    requires IsEarliest(lib, blocks, d) && IsEarliest(lib, blocks, e)
    ensures d == e
  {
    if d.Some? {
      var b :| b in blocks && Deadline(lib, b) == d;
      assert e.Some?;
    }
    if e.Some? {
      var b :| b in blocks && Deadline(lib, b) == e;
      assert d.Some?;
    }
  }

  /** Freshness read off the earliest expiry, as the code tests it. */
  lemma FreshByEarliest(lib: Lib, blocks: seq<TokenBlock>, e: Option<int>, now: int)
    requires !Zoneless(lib, blocks) && IsEarliest(lib, blocks, e)
    ensures Fresh(lib, blocks, now) <==> (e.None? || now < e.value)
  {
    forall b | b in blocks && Expiry(lib, b).Some? ensures Deadline(lib, b) == Some(Expiry(lib, b).value.t) {
      assert !HasNaive(lib, b);
    }
    if e.Some? {
      var b :| b in blocks && Deadline(lib, b) == e;
    }
  }

  function Tenant(blocks: seq<TokenBlock>): Option<string>
    requires blocks != []
  {
    LastArgument(blocks[0].facts, TENANT)
  }

  ghost predicate TenantMatches(blocks: seq<TokenBlock>, expected: Option<string>)
    requires blocks != []
  {
    expected.Some? ==> Tenant(blocks) == expected
  }

  ghost predicate ToolMatches(blocks: seq<TokenBlock>, required: Option<string>) {
    required.Some? ==> InScope(blocks, required.value)
  }

  /** What the blocks alone allow. */
  ghost predicate Allows(lib: Lib, req: Request, blocks: seq<TokenBlock>) {
    blocks != [] && Fresh(lib, blocks, req.now) && TenantMatches(blocks, req.expectedTenant)
    && ToolMatches(blocks, req.requiredTool)
  }

  /** The declarative specification of acceptance. */
  ghost predicate Accepts(lib: Lib, req: Request, token: string) {
    Authentic(lib, req, token) && Allows(lib, req, BlocksOf(lib, token))
  }

  /**
   The verifier raises on a payload that is JSON but no object, before any signature is looked at, and
   on an authentic token with an expiry that has no time zone.
   */
  ghost predicate Raises(lib: Lib, req: Request, token: string) {
    match ParseWire(token)
    case None => false
    case Some((payload, _)) =>
      lib.parseJson(payload).NotAnObject? || (Authentic(lib, req, token) && Zoneless(lib, BlocksOf(lib, token)))
  }

  lemma AcceptedDoesNotRaise(lib: Lib, req: Request, token: string)
    requires Accepts(lib, req, token)
    ensures !Raises(lib, req, token)
  {
    assert Fresh(lib, BlocksOf(lib, token), req.now);
  }

  /** The denial reason: the first test that fails, in this order. */
  ghost function DenialOf(lib: Lib, req: Request, token: string): Reason
    requires !Accepts(lib, req, token) && !Raises(lib, req, token)
  {
    if !Authentic(lib, req, token) then TokenInvalid
    else if !Fresh(lib, BlocksOf(lib, token), req.now) then TaskExpired
    else if !TenantMatches(BlocksOf(lib, token), req.expectedTenant) then TenantMismatch
    else ToolNotInScope
  }

  // ------------------------------------------------------------ verify_local

  /** The claims are those of the token: all of them, or what is known by the time of a denial. */
  ghost predicate ClaimsOf(lib: Lib, token: string, c: Claims, tools: bool, identity: bool) {
    var blocks := BlocksOf(lib, token);
    && blocks != [] && IsEarliest(lib, blocks, c.expiresAt)
    && (if tools then forall tool :: tool in c.tools <==> InScope(blocks, tool) else c.tools == {})
    && c.tenantId == (if identity then LastArgument(blocks[0].facts, TENANT) else None)
    && c.agentId == (if identity then LastArgument(blocks[0].facts, AGENT) else None)
    && c.taskId == (if identity then LastArgument(blocks[0].facts, TASK) else None)
  }

  /** The verifier's early-return chain. */
  method VerifyLocal(lib: Lib, req: Request, token: string) returns (v: Verdict)
    ensures v.Ok? <==> Accepts(lib, req, token)
    ensures v.Raised? <==> Raises(lib, req, token)
    ensures v.Denied? ==> v.reason == DenialOf(lib, req, token)
    ensures v.Ok? ==> ClaimsOf(lib, token, v.claims, true, true)
    ensures v.Denied? ==>
              match v.reason
              case TokenInvalid => v.claims == NO_CLAIMS
              case TaskExpired => ClaimsOf(lib, token, v.claims, false, false)
              case TenantMismatch => ClaimsOf(lib, token, v.claims, false, true)
              case ToolNotInScope => ClaimsOf(lib, token, v.claims, true, true)
  {
    var wire := ParseWire(token);
    if wire.None? {
      return Denied(TokenInvalid, NO_CLAIMS);
    }
    var (payload, sig) := wire.value;
    var raw := lib.parseJson(payload);
    if raw.NotJson? {
      return Denied(TokenInvalid, NO_CLAIMS);
    }
    if raw.NotAnObject? {
      return Raised;
    }
    var keys: set<Bytes>;
    if raw.kid != "" {
      if raw.kid !in req.keyring {
        return Denied(TokenInvalid, NO_CLAIMS);
      }
      keys := {req.keyring[raw.kid]};
    } else if req.activeKid.Some? {
      if req.activeKid.value !in req.keyring {
        return Denied(TokenInvalid, NO_CLAIMS);
      }
      keys := {req.keyring[req.activeKid.value]};
    } else {
      keys := req.keyring.Values;
      if keys == {} {
        return Denied(TokenInvalid, NO_CLAIMS);
      }
    }
    var verified := FindKey(lib, keys, payload, sig);
    if !verified {
      return Denied(TokenInvalid, NO_CLAIMS);
    }
    if !raw.raw.Listed? || raw.raw.blocks == [] {
      return Denied(TokenInvalid, NO_CLAIMS);
    }
    assert Authentic(lib, req, token) && BlocksOf(lib, token) == raw.raw.blocks;
    v := VerifyBlocks(lib, req, token, raw.raw.blocks);
  }

  /** The tests on the blocks of an authentic token. */
  method VerifyBlocks(lib: Lib, req: Request, ghost token: string, blocks: seq<TokenBlock>) returns (v: Verdict)
    requires Authentic(lib, req, token) && blocks == BlocksOf(lib, token) != []
    ensures v.Ok? <==> Accepts(lib, req, token)
    ensures v.Raised? <==> Zoneless(lib, blocks)
    ensures v.Raised? <==> Raises(lib, req, token)
    ensures v.Denied? ==> v.reason == DenialOf(lib, req, token) != TokenInvalid
    ensures v.Ok? ==> ClaimsOf(lib, token, v.claims, true, true)
    ensures v.Denied? ==>
              match v.reason
              case TaskExpired => ClaimsOf(lib, token, v.claims, false, false)
              case TenantMismatch => ClaimsOf(lib, token, v.claims, false, true)
              case _ => ClaimsOf(lib, token, v.claims, true, true)
  {
    if Accepts(lib, req, token) {
      AcceptedDoesNotRaise(lib, req, token);
    }
    var raised, earliest := MostRestrictiveExpiry(lib, blocks);
    if raised || (earliest.Some? && earliest.value.Naive?) {
      return Raised;
    }
    var expiresAt := if earliest.None? then None else Some(earliest.value.t);
    assert !Zoneless(lib, blocks) && IsEarliest(lib, blocks, expiresAt);
    FreshByEarliest(lib, blocks, expiresAt, req.now);
    if expiresAt.Some? && req.now >= expiresAt.value {
      return Denied(TaskExpired, NO_CLAIMS.(expiresAt := expiresAt));
    }
    var tools := ComputeEffectiveTools(blocks);
    var tenantId, agentId, taskId := ExtractIdentity(blocks[0].facts);
    if req.expectedTenant.Some? && tenantId != req.expectedTenant {
      return Denied(TenantMismatch, Claims({}, tenantId, agentId, taskId, expiresAt));
    }
    if req.requiredTool.Some? && req.requiredTool.value !in tools {
      return Denied(ToolNotInScope, Claims(tools, tenantId, agentId, taskId, expiresAt));
    }
    return Ok(Claims(tools, tenantId, agentId, taskId, expiresAt));
  }
}
