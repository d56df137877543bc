/**
 What the local verifier promises about authority: appending blocks can only take authority away,
 the order of the later blocks is irrelevant, and a minted token is accepted for exactly what was
 minted into it.
 */
module Attenuation {
  import opened Wrappers
  import opened Base64Url
  import opened TokenFacts
  import opened Verify

  /** The earlier of two expiries; None is never. */
  function Earlier(a: Option<int>, b: Option<int>): Option<int> {
    if a.None? then b else if b.None? then a else if a.value <= b.value then a else b
  }

  /** Appending blocks moves the expiry only earlier. */
  lemma ExpiryOfAppended(lib: Lib, blocks: seq<TokenBlock>, more: seq<TokenBlock>, e: Option<int>, f: Option<int>)
    requires IsEarliest(lib, blocks, e) && IsEarliest(lib, more, f)
    ensures IsEarliest(lib, blocks + more, Earlier(e, f))
  {
    var g := Earlier(e, f);
    forall b | b in blocks + more && Deadline(lib, b).Some?
      ensures g.Some? && g.value <= Deadline(lib, b).value
    {
      assert b in blocks || b in more;
    }
    if g.Some? {
      var b :| (b in blocks || b in more) && Deadline(lib, b) == g;
      assert b in blocks + more;
    }
  }

  /** A tool in scope after appending blocks was in scope before. */
  lemma ScopeOfAppended(blocks: seq<TokenBlock>, more: seq<TokenBlock>, tool: string)
    requires blocks != []
    ensures InScope(blocks + more, tool) <==> InScope(blocks, tool) && forall b :: b in more ==> Grants(b, tool)
  {
    if InScope(blocks + more, tool) {
      forall b | b in blocks ensures Grants(b, tool) {
        assert b in blocks + more;
      }
      forall b | b in more ensures Grants(b, tool) {
        assert b in blocks + more;
      }
    }
  }

  /**
   Attenuation never widens: for every tool, tenant and time, what the blocks with more appended
   allow, the blocks alone allowed already; and the appended blocks take away exactly what one of
   them does not grant or no longer permits.
   */
  lemma AppendedBlocksOnlyDeny(lib: Lib, req: Request, blocks: seq<TokenBlock>, more: seq<TokenBlock>)
    requires blocks != []
    ensures Allows(lib, req, blocks + more)
            <==> Allows(lib, req, blocks) && Fresh(lib, more, req.now)
                 && (req.requiredTool.Some? ==> forall b :: b in more ==> Grants(b, req.requiredTool.value))
  {
    assert (blocks + more)[0] == blocks[0];
    if req.requiredTool.Some? {
      ScopeOfAppended(blocks, more, req.requiredTool.value);
    }
    FreshAppended(lib, blocks, more, req.now);
  }

  lemma FreshAppended(lib: Lib, blocks: seq<TokenBlock>, more: seq<TokenBlock>, now: int)
    ensures Fresh(lib, blocks + more, now) <==> Fresh(lib, blocks, now) && Fresh(lib, more, now)
  {
    if Fresh(lib, blocks + more, now) {
      forall b | (b in blocks || b in more) && Expiry(lib, b).Some?
        ensures Expiry(lib, b).value.Aware? && now < Expiry(lib, b).value.t
      {
        assert b in blocks + more;
      }
    }
  }

  /** The same for whole tokens: an attenuated token is accepted only where its parent is. */
  lemma AttenuatedTokenIsWeaker(lib: Lib, req: Request, parent: string, child: string, more: seq<TokenBlock>)
    requires Authentic(lib, req, parent)
    requires BlocksOf(lib, child) == BlocksOf(lib, parent) + more
    requires Accepts(lib, req, child)
    ensures Accepts(lib, req, parent)
  {
    AppendedBlocksOnlyDeny(lib, req, BlocksOf(lib, parent), more);
  }

  /** The order of the blocks after the authority block makes no difference. */
  lemma OrderOfLaterBlocksIsIrrelevant(
    lib: Lib, req: Request, authority: TokenBlock, a: seq<TokenBlock>, b: seq<TokenBlock>, e: Option<int>, tool: string)
    requires multiset(a) == multiset(b)
    ensures Allows(lib, req, [authority] + a) <==> Allows(lib, req, [authority] + b)
    ensures IsEarliest(lib, [authority] + a, e) <==> IsEarliest(lib, [authority] + b, e)
    ensures InScope([authority] + a, tool) <==> InScope([authority] + b, tool)
  {
    SameBlocks([authority] + a, [authority] + b, authority, a, b);
  }

  lemma SameBlocks(p: seq<TokenBlock>, q: seq<TokenBlock>, authority: TokenBlock, a: seq<TokenBlock>, b: seq<TokenBlock>)
    requires p == [authority] + a && q == [authority] + b && multiset(a) == multiset(b)
    ensures forall x :: x in p <==> x in q
  {
    forall x ensures x in p <==> x in q {
      assert x in a <==> x in multiset(a);
      assert x in b <==> x in multiset(b);
    }
  }

  // ---------------------------------------------------------------- expiry

  /** A check permits a time if it does not limit it, or ends later. */
  predicate Permits(lib: Lib, check: string, now: int) {
    var e := CheckExpiry(check, lib.parseTime);
    e.Some? ==> e.value.Aware? && now < e.value.t
  }

  /** The rule is per block: a tighter check behind the first parseable one is not looked at. */
  lemma SecondCheckIsIgnored(parseTime: string -> Option<Time>, loose: string, tight: string, t: int, u: int, now: int)
    requires CheckExpiry(loose, parseTime) == Some(Aware(t)) && CheckExpiry(tight, parseTime) == Some(Aware(u))
    requires u <= now < t
    ensures BlockExpiry([loose, tight], parseTime) == Some(Aware(t)) && now < t
    ensures BlockExpiry([tight, loose], parseTime) == Some(Aware(u)) && now >= u
  {
  }

  /** The first parseable check is at least as strict as every other. */
  ghost predicate FirstIsStrictest(lib: Lib, block: TokenBlock) {
    var e := Expiry(lib, block);
    forall i :: 0 <= i < |block.checks| && CheckExpiry(block.checks[i], lib.parseTime).Some? ==>
      var f := CheckExpiry(block.checks[i], lib.parseTime).value;
      e.Some? && (e.value.Naive? || (f.Aware? && e.value.t <= f.t))
  }

  /** A block is respected to the letter of all its checks exactly when its first parseable check is the strictest. */
  lemma FirstCheckSuffices(lib: Lib, block: TokenBlock)
    ensures (forall now :: Fresh(lib, [block], now) <==>
               forall i :: 0 <= i < |block.checks| ==> Permits(lib, block.checks[i], now))
            <==> FirstIsStrictest(lib, block)
  {
    FirstIsAmongChecks(block.checks, lib.parseTime);
    var e := Expiry(lib, block);
    FreshOfOne(lib, block);
    if i :| 0 <= i < |block.checks| && CheckExpiry(block.checks[i], lib.parseTime).Some?
            && !(e.value.Naive? || (CheckExpiry(block.checks[i], lib.parseTime).value.Aware?
                                    && e.value.t <= CheckExpiry(block.checks[i], lib.parseTime).value.t)) {
      var f := CheckExpiry(block.checks[i], lib.parseTime).value;
      var now := if f.Aware? then f.t else e.value.t - 1;
      assert Fresh(lib, [block], now) && !Permits(lib, block.checks[i], now);
    }
  }

  lemma FreshOfOne(lib: Lib, block: TokenBlock)
    ensures forall now :: Fresh(lib, [block], now)
                          <==> (Expiry(lib, block).Some? ==> Expiry(lib, block).value.Aware? && now < Expiry(lib, block).value.t)
  {
    assert forall b :: b in [block] <==> b == block;
  }

  /** The block's expiry is one of its checks, and there is one whenever any check parses. */
  lemma {:induction false} FirstIsAmongChecks(checks: seq<string>, parseTime: string -> Option<Time>)
    ensures var e := BlockExpiry(checks, parseTime);
            && (e.Some? ==> exists i :: 0 <= i < |checks| && CheckExpiry(checks[i], parseTime) == e)
            && (e.None? ==> forall i :: 0 <= i < |checks| ==> CheckExpiry(checks[i], parseTime).None?)
  {
    if checks != [] {
      var rest := checks[1..];
      FirstIsAmongChecks(rest, parseTime);
      if CheckExpiry(checks[0], parseTime).None? {
        var e := BlockExpiry(rest, parseTime);
        if e.Some? {
          var i :| 0 <= i < |rest| && CheckExpiry(rest[i], parseTime) == e;
          assert CheckExpiry(checks[i + 1], parseTime) == e;
        } else {
          forall i | 0 <= i < |checks| ensures CheckExpiry(checks[i], parseTime).None? {
            assert i > 0 ==> checks[i] == rest[i - 1];
          }
        }
      }
    }
  }

  // --------------------------------------------------------------- minting

  /** Before the expiry that the checks of a block set, if any. */
  predicate Unexpired(lib: Lib, checks: seq<string>, now: int) {
    var e := BlockExpiry(checks, lib.parseTime);
    e.Some? ==> e.value.Aware? && now < e.value.t
  }

  /** The expiry that the checks set has no time zone. */
  predicate ExpiresZoneless(lib: Lib, checks: seq<string>) {
    var e := BlockExpiry(checks, lib.parseTime);
    e.Some? && e.value.Naive?
  }

  /** A minted expiry ends at the very time that was minted, however many checks follow it. */
  lemma MintedExpiryHolds(lib: Lib, time: string, more: seq<string>, t: int, now: int)
    requires Plain(time) && lib.parseTime(time) == Some(Aware(t))
    ensures Unexpired(lib, [ExpiryCheck(time)] + more, now) <==> now < t
  {
    ExpiryReadsBack(time, lib.parseTime);
    assert ([ExpiryCheck(time)] + more)[0] == ExpiryCheck(time);
  }

  /** A block as the issuer mints it. */
  function MintBlock(tenant: string, agent: string, task: string, tools: seq<string>, checks: seq<string>): TokenBlock {
    TokenBlock(MintFacts(tenant, agent, task, tools), checks)
  }

  /**
   Signed by a key the token may be signed with: the key it names, and no other; if it names none, the
   active key; if there is none either, some key of the keyring.
   */
  ghost predicate SignedAsNamed(lib: Lib, keyring: map<string, Bytes>, activeKid: Option<string>, kid: string, payload: Bytes, sig: Bytes) {
    && (kid != "" ==> kid in keyring && lib.verifies(keyring[kid], payload, sig))
    && (kid == "" && activeKid.Some? ==> activeKid.value in keyring && lib.verifies(keyring[activeKid.value], payload, sig))
    && (kid == "" && activeKid.None? ==> exists k :: k in keyring && lib.verifies(keyring[k], payload, sig))
  }

  /** A token that parses is authentic exactly when it carries blocks and is signed as it names. */
  lemma AuthenticExactlyWhen(lib: Lib, req: Request, token: string, payload: Bytes, sig: Bytes, kid: string, raw: RawBlocks)
    requires ParseWire(token) == Some((payload, sig)) && lib.parseJson(payload) == Object(kid, raw)
    ensures Authentic(lib, req, token) <==>
              raw.Listed? && raw.blocks != [] && SignedAsNamed(lib, req.keyring, req.activeKid, kid, payload, sig)
  {
    var keys := AllowedKeys(req.keyring, kid, req.activeKid);
    if kid == "" && req.activeKid.None? {
      forall k | k in req.keyring ensures req.keyring[k] in keys {
      }
    }
  }

  /** Whatever bytes are minted into a token: it is authentic exactly when they are signed as it names. */
  lemma WireIsAuthentic(lib: Lib, req: Request, payload: Bytes, sig: Bytes, kid: string, blocks: seq<TokenBlock>)
    requires payload != [] && sig != [] && blocks != []
    requires lib.parseJson(payload) == Object(kid, Listed(blocks))
    ensures Authentic(lib, req, Wire(payload, sig)) <==> SignedAsNamed(lib, req.keyring, req.activeKid, kid, payload, sig)
    ensures BlocksOf(lib, Wire(payload, sig)) == blocks
  {
    WireRoundTrip(payload, sig);
    AuthenticExactlyWhen(lib, req, Wire(payload, sig), payload, sig, kid, Listed(blocks));
  }

  /** What one attenuation grants and how long: a block of tool facts and expiry checks. */
  datatype Layer = Layer(tools: seq<string>, checks: seq<string>)

  function LayerBlock(layer: Layer): TokenBlock {
    TokenBlock(ToolFacts(layer.tools), layer.checks)
  }

  function LayerBlocks(layers: seq<Layer>): seq<TokenBlock> {
    seq(|layers|, i requires 0 <= i < |layers| => LayerBlock(layers[i]))
  }

  lemma LayerGrants(layer: Layer, tool: string)
    requires forall t :: t in layer.tools ==> Plain(t)
    ensures Grants(LayerBlock(layer), tool) <==> tool in layer.tools
  {
    ToolFactsNames([], layer.tools);
    assert [] + ToolFacts(layer.tools) == ToolFacts(layer.tools);
  }

  lemma LayersAllow(lib: Lib, layers: seq<Layer>, tool: string, now: int)
    requires forall l, t :: l in layers && t in l.tools ==> Plain(t)
    ensures (forall b :: b in LayerBlocks(layers) ==> Grants(b, tool)) <==> (forall l :: l in layers ==> tool in l.tools)
    ensures Fresh(lib, LayerBlocks(layers), now)
            <==> forall l :: l in layers ==> Unexpired(lib, l.checks, now)
  {
    var blocks := LayerBlocks(layers);
    forall l | l in layers ensures LayerBlock(l) in blocks && (Grants(LayerBlock(l), tool) <==> tool in l.tools) {
      var i :| 0 <= i < |layers| && layers[i] == l;
      assert blocks[i] == LayerBlock(l);
      LayerGrants(l, tool);
    }
    forall b | b in blocks ensures exists l :: l in layers && b == LayerBlock(l) {
      var i :| 0 <= i < |blocks| && blocks[i] == b;
      assert layers[i] in layers;
    }
    forall l | l in layers ensures Expiry(lib, LayerBlock(l)) == BlockExpiry(l.checks, lib.parseTime) {
    }
  }

  /** Everything that is minted into a token: the identities, and what the minted block and each attenuation grant. */
  datatype Minting = Minting(tenant: string, agent: string, task: string, base: Layer, more: seq<Layer>) {
    function Layers(): seq<Layer> { [base] + more }

    function Blocks(): (blocks: seq<TokenBlock>)
      ensures blocks != []
    {
      [MintBlock(tenant, agent, task, base.tools, base.checks)] + LayerBlocks(more)
    }

    predicate Valid() {
      Plain(tenant) && Plain(agent) && Plain(task) && forall l, t :: l in Layers() && t in l.tools ==> Plain(t)
    }
  }

  /** The token is the wire form of this minting, under this key id. */
  ghost predicate IsMinted(lib: Lib, m: Minting, payload: Bytes, sig: Bytes, kid: string) {
    m.Valid() && payload != [] && sig != [] && lib.parseJson(payload) == Object(kid, Listed(m.Blocks()))
  }

  /** What the blocks of a minting grant, and how long: read off what was minted. */
  lemma MintedBlocksRead(lib: Lib, m: Minting, tool: string, now: int)
    requires m.Valid()
    ensures InScope(m.Blocks(), tool) <==> forall l :: l in m.Layers() ==> tool in l.tools
    ensures Fresh(lib, m.Blocks(), now) <==> forall l :: l in m.Layers() ==> Unexpired(lib, l.checks, now)
    ensures Tenant(m.Blocks()) == Some(m.tenant)
    ensures LastArgument(m.Blocks()[0].facts, AGENT) == Some(m.agent) && LastArgument(m.Blocks()[0].facts, TASK) == Some(m.task)
  {
    var authority := MintBlock(m.tenant, m.agent, m.task, m.base.tools, m.base.checks);
    var all := m.Layers();
    assert m.base in all && (forall l :: l in m.more ==> l in all) && (forall l :: l in all ==> l == m.base || l in m.more);
    MintedFactsReadBack(m.tenant, m.agent, m.task, m.base.tools);
    ScopeOfAppended([authority], LayerBlocks(m.more), tool);
    FreshAppended(lib, [authority], LayerBlocks(m.more), now);
    FreshOfOne(lib, authority);
    assert authority in [authority];
    LayersAllow(lib, m.more, tool, now);
  }

  /**
   End to end: a minted token with any number of attenuations is accepted for a tool, a tenant and a
   time exactly when it is signed as it names, the tool was minted and every attenuation keeps it, the
   tenant is the minted one, and neither the minted block nor any attenuation has expired.
   */
  lemma MintedTokenAcceptedExactly(lib: Lib, req: Request, payload: Bytes, sig: Bytes, kid: string, m: Minting)
    requires IsMinted(lib, m, payload, sig, kid)
    ensures Accepts(lib, req, Wire(payload, sig)) <==>
            && SignedAsNamed(lib, req.keyring, req.activeKid, kid, payload, sig)
            && (req.requiredTool.Some? ==> forall l :: l in m.Layers() ==> req.requiredTool.value in l.tools)
            && (req.expectedTenant.Some? ==> req.expectedTenant.value == m.tenant)
            && (forall l :: l in m.Layers() ==> Unexpired(lib, l.checks, req.now))
  {
    WireIsAuthentic(lib, req, payload, sig, kid, m.Blocks());
    MintedBlocksRead(lib, m, if req.requiredTool.Some? then req.requiredTool.value else "", req.now);
  }

  /** A refused one is refused for the first of these that fails, in this order. */
  lemma MintedTokenDeniedFor(lib: Lib, req: Request, payload: Bytes, sig: Bytes, kid: string, m: Minting)
    requires IsMinted(lib, m, payload, sig, kid)
    requires !Accepts(lib, req, Wire(payload, sig)) && !Raises(lib, req, Wire(payload, sig))
    ensures var reason := DenialOf(lib, req, Wire(payload, sig));
            && (reason == TokenInvalid <==> !SignedAsNamed(lib, req.keyring, req.activeKid, kid, payload, sig))
            && (reason == TaskExpired <==>
                  && SignedAsNamed(lib, req.keyring, req.activeKid, kid, payload, sig)
                  && exists l :: l in m.Layers() && !Unexpired(lib, l.checks, req.now))
            && (reason == TenantMismatch <==>
                  && SignedAsNamed(lib, req.keyring, req.activeKid, kid, payload, sig)
                  && (forall l :: l in m.Layers() ==> Unexpired(lib, l.checks, req.now))
                  && req.expectedTenant.Some? && req.expectedTenant.value != m.tenant)
  {
    WireIsAuthentic(lib, req, payload, sig, kid, m.Blocks());
    MintedBlocksRead(lib, m, if req.requiredTool.Some? then req.requiredTool.value else "", req.now);
  }

  /** It makes the verifier raise exactly when it is signed as it names and some layer's expiry has no time zone. */
  lemma MintedTokenRaisesExactly(lib: Lib, req: Request, payload: Bytes, sig: Bytes, kid: string, m: Minting)
    requires IsMinted(lib, m, payload, sig, kid)
    ensures Raises(lib, req, Wire(payload, sig)) <==>
            && SignedAsNamed(lib, req.keyring, req.activeKid, kid, payload, sig)
            && exists l :: l in m.Layers() && ExpiresZoneless(lib, l.checks)
  {
    WireIsAuthentic(lib, req, payload, sig, kid, m.Blocks());
    WireRoundTrip(payload, sig);
    var blocks := m.Blocks();
    forall i | 0 <= i < |blocks| ensures HasNaive(lib, blocks[i]) <==> ExpiresZoneless(lib, m.Layers()[i].checks) {
    }
    if b :| b in blocks && HasNaive(lib, b) {
      var i :| 0 <= i < |blocks| && blocks[i] == b;
      assert m.Layers()[i] in m.Layers();
    }
    if l :| l in m.Layers() && ExpiresZoneless(lib, l.checks) {
      var i :| 0 <= i < |m.Layers()| && m.Layers()[i] == l;
      assert blocks[i] in blocks;
    }
  }

  /** The tool was minted, and every attenuation keeps it. */
  ghost predicate KeptThroughout(m: Minting, tool: string) {
    forall l :: l in m.Layers() ==> tool in l.tools
  }

  /** What the verifier reports of an accepted token is what was minted. */
  lemma MintedClaimsReported(lib: Lib, m: Minting, payload: Bytes, sig: Bytes, kid: string, c: Claims)
    requires IsMinted(lib, m, payload, sig, kid) && ClaimsOf(lib, Wire(payload, sig), c, true, true)
    ensures c.tenantId == Some(m.tenant) && c.agentId == Some(m.agent) && c.taskId == Some(m.task)
    ensures forall tool :: tool in c.tools <==> KeptThroughout(m, tool)
  {
    WireRoundTrip(payload, sig);
    assert BlocksOf(lib, Wire(payload, sig)) == m.Blocks();
    MintedBlocksRead(lib, m, "", 0);
    forall tool ensures tool in c.tools <==> KeptThroughout(m, tool) {
      MintedBlocksRead(lib, m, tool, 0);
    }
  }

  /** A kid-less token signed only by a key other than the active one is refused once an active key is set. */
  lemma RotatedKeyIsRefused(lib: Lib, req: Request, payload: Bytes, sig: Bytes, raw: RawBlocks)
    requires payload != [] && sig != []
    requires lib.parseJson(payload) == Object("", raw) && req.activeKid.Some?
    requires req.activeKid.value in req.keyring ==> !lib.verifies(req.keyring[req.activeKid.value], payload, sig)
    ensures !Authentic(lib, req, Wire(payload, sig)) && !Accepts(lib, req, Wire(payload, sig))
  {
    WireRoundTrip(payload, sig);
  }
}
