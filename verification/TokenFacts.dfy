/**
 Facts and checks inside a token block: strings such as tool("zep.search"), read by prefix, suffix
 and quote stripping. The methods are the verifier's loops; the functions say what they compute;
 the lemmas say that reading gives back what was minted and that the kinds of fact never mix.
 */
module TokenFacts {
  import opened Wrappers

  const EXPIRY_PREFIX: string := "check if time($t), $t < "
  const TOOL: string := "tool("
  const TENANT: string := "tenant("
  const AGENT: string := "agent("
  const TASK: string := "task("

  datatype TokenBlock = TokenBlock(facts: seq<string>, checks: seq<string>)

  // --------------------------------------------------------------- strings

  function StripLeft(s: string): string {
    if s != [] && s[0] == '"' then StripLeft(s[1..]) else s
  }

  function StripRight(s: string): string {
    if s != [] && s[|s| - 1] == '"' then StripRight(s[..|s| - 1]) else s
  }

  /** All double quotes at either end removed. */
  function StripQuotes(s: string): string {
    StripRight(StripLeft(s))
  }

  /** The argument of a fact of the given kind; None for any other string. */
  function Argument(fact: string, kind: string): Option<string> {
    if kind <= fact && |kind| < |fact| && fact[|fact| - 1] == ')'
    then Some(StripQuotes(fact[|kind|..|fact| - 1]))
    else None
  }

  /** A fact of a kind: the test the loops make. */
  predicate Is(fact: string, kind: string) {
    Argument(fact, kind).Some?
  }

  // ------------------------------------------------------------- tool facts

  function ToolNames(facts: seq<string>): seq<string> {
    if facts == [] then [] else
      var last := Argument(facts[|facts| - 1], TOOL);
      ToolNames(facts[..|facts| - 1]) + if last.Some? && last.value != "" then [last.value] else []
  }

  method ExtractToolNames(facts: seq<string>) returns (tools: seq<string>)
    ensures tools == ToolNames(facts)
  {
    tools := [];
    for i := 0 to |facts|
      invariant tools == ToolNames(facts[..i])
    {
      var f := facts[i];
      assert facts[..i + 1][..i] == facts[..i];
      if TOOL <= f && f[|f| - 1] == ')' {
        var name := StripQuotes(f[|TOOL|..|f| - 1]);
        if name != "" {
          tools := tools + [name];
        }
      }
    }
    assert facts[..|facts|] == facts;
  }

  /** A tool is granted by a block exactly when one of its facts names it, and the empty name never is. */
  lemma {:induction false} ToolNamesMeaning(facts: seq<string>, tool: string)
    ensures tool in ToolNames(facts) <==> tool != "" && exists i :: 0 <= i < |facts| && Argument(facts[i], TOOL) == Some(tool)
  {
    if facts != [] {
      var n := |facts| - 1;
      ToolNamesMeaning(facts[..n], tool);
      if i :| 0 <= i < n && Argument(facts[..n][i], TOOL) == Some(tool) {
        assert Argument(facts[i], TOOL) == Some(tool);
      }
      if i :| 0 <= i < |facts| && Argument(facts[i], TOOL) == Some(tool) {
        if i < n {
          assert Argument(facts[..n][i], TOOL) == Some(tool);
        }
      }
    }
  }

  // --------------------------------------------------------- identity facts

  /** The argument of the last fact of a kind. */
  function LastArgument(facts: seq<string>, kind: string): Option<string> {
    if facts == [] then None
    else if Is(facts[|facts| - 1], kind) then Argument(facts[|facts| - 1], kind)
    else LastArgument(facts[..|facts| - 1], kind)
  }

  lemma KindsDiffer(a: string, b: string)
    requires a in {TOOL, TENANT, AGENT, TASK} && b in {TOOL, TENANT, AGENT, TASK} && a != b
    ensures |a| > 1 && |b| > 1 && (a[0] != b[0] || a[1] != b[1])
  {
  }

  /** The four kinds exclude each other, so the order of the tests does not matter. */
  lemma KindsAreDisjoint(fact: string, a: string, b: string)
    requires a in {TOOL, TENANT, AGENT, TASK} && b in {TOOL, TENANT, AGENT, TASK} && a != b
    ensures !(Is(fact, a) && Is(fact, b))
  {
    KindsDiffer(a, b);
    assert a <= fact ==> a[0] == fact[0] && a[1] == fact[1];
    assert b <= fact ==> b[0] == fact[0] && b[1] == fact[1];
  }

  method ExtractIdentity(facts: seq<string>)
    returns (tenantId: Option<string>, agentId: Option<string>, taskId: Option<string>)
    ensures tenantId == LastArgument(facts, TENANT)
    ensures agentId == LastArgument(facts, AGENT)
    ensures taskId == LastArgument(facts, TASK)
  {
    tenantId, agentId, taskId := None, None, None;
    for i := 0 to |facts|
      invariant tenantId == LastArgument(facts[..i], TENANT)
      invariant agentId == LastArgument(facts[..i], AGENT)
      invariant taskId == LastArgument(facts[..i], TASK)
    {
      var f := facts[i];
      assert facts[..i + 1][..i] == facts[..i];
      KindsAreDisjoint(f, TENANT, AGENT);
      KindsAreDisjoint(f, TENANT, TASK);
      KindsAreDisjoint(f, AGENT, TASK);
      if TENANT <= f && f[|f| - 1] == ')' {
        tenantId := Some(StripQuotes(f[|TENANT|..|f| - 1]));
      } else if AGENT <= f && f[|f| - 1] == ')' {
        agentId := Some(StripQuotes(f[|AGENT|..|f| - 1]));
      } else if TASK <= f && f[|f| - 1] == ')' {
        taskId := Some(StripQuotes(f[|TASK|..|f| - 1]));
      }
    }
    assert facts[..|facts|] == facts;
  }

  // ----------------------------------------------------------------- expiry

  /** A parsed timestamp, with a time zone or without. The two kinds cannot be compared. */
  datatype Time = Aware(t: int) | Naive(t: int)

  /** The timestamp of a check, when it is an expiry check with a timestamp that parses. */
  function CheckExpiry(check: string, parseTime: string -> Option<Time>): Option<Time> {
    if EXPIRY_PREFIX <= check then parseTime(StripQuotes(check[|EXPIRY_PREFIX|..])) else None
  }

  /** A block expires at its first check that parses; later checks of the same block do not count. */
  function BlockExpiry(checks: seq<string>, parseTime: string -> Option<Time>): Option<Time> {
    if checks == [] then None
    else if CheckExpiry(checks[0], parseTime).Some? then CheckExpiry(checks[0], parseTime)
    else BlockExpiry(checks[1..], parseTime)
  }

  method ParseExpiry(checks: seq<string>, parseTime: string -> Option<Time>) returns (expiry: Option<Time>)
    ensures expiry == BlockExpiry(checks, parseTime)
  {
    for i := 0 to |checks|
      invariant BlockExpiry(checks, parseTime) == BlockExpiry(checks[i..], parseTime)
    {
      var check := checks[i];
      assert checks[i..][1..] == checks[i + 1..];
      if EXPIRY_PREFIX <= check {
        var parsed := parseTime(StripQuotes(check[|EXPIRY_PREFIX|..]));
        if parsed.Some? {
          return parsed;
        }
      }
    }
    return None;
  }

  /** First means first: everything before it does not parse. */
  lemma {:induction false} BlockExpiryIsFirst(checks: seq<string>, parseTime: string -> Option<Time>, t: Time)
    ensures BlockExpiry(checks, parseTime) == Some(t)
            <==> exists i :: 0 <= i < |checks| && CheckExpiry(checks[i], parseTime) == Some(t)
                             && forall j :: 0 <= j < i ==> CheckExpiry(checks[j], parseTime) == None
  {
    if checks != [] {
      var rest := checks[1..];
      BlockExpiryIsFirst(rest, parseTime, t);
      if CheckExpiry(checks[0], parseTime).None? {
        if i :| 0 <= i < |rest| && CheckExpiry(rest[i], parseTime) == Some(t)
                && forall j :: 0 <= j < i ==> CheckExpiry(rest[j], parseTime) == None {
          forall j | 0 <= j < i + 1 ensures CheckExpiry(checks[j], parseTime) == None {
            assert j > 0 ==> checks[j] == rest[j - 1];
          }
          assert CheckExpiry(checks[i + 1], parseTime) == Some(t);
        }
        if i :| 0 <= i < |checks| && CheckExpiry(checks[i], parseTime) == Some(t)
                && forall j :: 0 <= j < i ==> CheckExpiry(checks[j], parseTime) == None {
          assert i > 0 && CheckExpiry(rest[i - 1], parseTime) == Some(t);
          forall j | 0 <= j < i - 1 ensures CheckExpiry(rest[j], parseTime) == None {
            assert rest[j] == checks[j + 1];
          }
        }
      }
    }
  }

  // --------------------------------------------------------------- minting

  /** A name that survives quote stripping: not empty, no quote at either end. */
  predicate Plain(name: string) {
    name != "" && name[0] != '"' && name[|name| - 1] != '"'
  }

  function Fact(kind: string, name: string): string {
    kind + "\"" + name + "\")"
  }

  /** An expiry check as the issuer writes it. */
  function ExpiryCheck(time: string): string {
    "check if time($t), $t < " + ("\"" + time + "\"")
  }

  function ToolFacts(tools: seq<string>): seq<string> {
    if tools == [] then [] else ToolFacts(tools[..|tools| - 1]) + [Fact(TOOL, tools[|tools| - 1])]
  }

  /** The facts of an authority block as the issuer writes them. */
  function MintFacts(tenant: string, agent: string, task: string, tools: seq<string>): seq<string> {
    [Fact(TENANT, tenant), Fact(AGENT, agent), Fact(TASK, task)] + ToolFacts(tools)
  }

  lemma QuotesStripped(name: string)
    requires Plain(name)
    ensures StripQuotes("\"" + name + "\"") == name == StripQuotes(name)
  {
    var quoted := "\"" + name + "\"";
    assert quoted[1..] == name + "\"";
    assert (name + "\"")[..|name|] == name;
    assert StripLeft(quoted) == name + "\"";
    assert StripRight(name + "\"") == name;
  }

  lemma ArgumentOfFact(kind: string, name: string)
    requires Plain(name)
    ensures Argument(Fact(kind, name), kind) == Some(name)
  {
    var fact := Fact(kind, name);
    assert fact[|kind|..|fact| - 1] == "\"" + name + "\"";
    QuotesStripped(name);
  }

  lemma FactIsNoOther(kind: string, other: string, name: string)
    requires kind in {TOOL, TENANT, AGENT, TASK} && other in {TOOL, TENANT, AGENT, TASK} && kind != other
    ensures !Is(Fact(kind, name), other)
  {
    KindsAreDisjoint(Fact(kind, name), kind, other);
  }

  /** What one more fact adds to the reading of a block. */
  lemma ReadOneMore(facts: seq<string>, fact: string)
    ensures ToolNames(facts + [fact])
            == ToolNames(facts) + if Is(fact, TOOL) && Argument(fact, TOOL) != Some("") then [Argument(fact, TOOL).value] else []
    ensures forall kind :: LastArgument(facts + [fact], kind)
                           == if Is(fact, kind) then Argument(fact, kind) else LastArgument(facts, kind)
  {
    var all := facts + [fact];
    assert all[..|all| - 1] == facts;
  }

  lemma ReadIdentity(facts: seq<string>, kind: string, name: string)
    requires kind in {TENANT, AGENT, TASK} && Plain(name)
    ensures ToolNames(facts + [Fact(kind, name)]) == ToolNames(facts)
    ensures LastArgument(facts + [Fact(kind, name)], kind) == Some(name)
    ensures forall other :: other in {TENANT, AGENT, TASK} && other != kind ==>
              LastArgument(facts + [Fact(kind, name)], other) == LastArgument(facts, other)
  {
    ReadOneMore(facts, Fact(kind, name));
    ArgumentOfFact(kind, name);
    forall other | other in {TOOL, TENANT, AGENT, TASK} && other != kind ensures !Is(Fact(kind, name), other) {
      FactIsNoOther(kind, other, name);
    }
    assert ToolNames(facts) + [] == ToolNames(facts);
  }

  lemma ReadTool(facts: seq<string>, tool: string)
    requires Plain(tool)
    ensures ToolNames(facts + [Fact(TOOL, tool)]) == ToolNames(facts) + [tool]
  {
    ReadOneMore(facts, Fact(TOOL, tool));
    ArgumentOfFact(TOOL, tool);
  }

  lemma Regroup<T>(a: seq<T>, b: seq<T>, c: seq<T>)
    ensures a + (b + c) == (a + b) + c
  {
  }

  lemma {:induction false} ToolFactsNames(before: seq<string>, tools: seq<string>)
    requires forall t :: t in tools ==> Plain(t)
    ensures ToolNames(before + ToolFacts(tools)) == ToolNames(before) + tools
    decreases |tools|
  {
    if tools == [] {
      assert before + ToolFacts(tools) == before;
    } else {
      var front, last := tools[..|tools| - 1], tools[|tools| - 1];
      ToolFactsNames(before, front);
      Regroup(before, ToolFacts(front), [Fact(TOOL, last)]);
      ReadTool(before + ToolFacts(front), last);
      Regroup(ToolNames(before), front, [last]);
      assert tools == front + [last];
    }
  }

  lemma {:induction false} ToolFactsIdentity(before: seq<string>, tools: seq<string>, kind: string)
    requires kind in {TENANT, AGENT, TASK}
    ensures LastArgument(before + ToolFacts(tools), kind) == LastArgument(before, kind)
    decreases |tools|
  {
    if tools == [] {
      assert before + ToolFacts(tools) == before;
    } else {
      var front, last := tools[..|tools| - 1], tools[|tools| - 1];
      ToolFactsIdentity(before, front, kind);
      Regroup(before, ToolFacts(front), [Fact(TOOL, last)]);
      ReadOneMore(before + ToolFacts(front), Fact(TOOL, last));
      FactIsNoOther(TOOL, kind, last);
    }
  }

  /** A minted expiry check is read as the time that was minted. */
  lemma ExpiryReadsBack(time: string, parseTime: string -> Option<Time>)
    requires Plain(time)
    ensures CheckExpiry(ExpiryCheck(time), parseTime) == parseTime(time)
  {
    QuotesStripped(time);
    var check := ExpiryCheck(time);
    var quoted := "\"" + time + "\"";
    assert check == EXPIRY_PREFIX + quoted;
    assert check[|EXPIRY_PREFIX|..] == quoted;
  }

  lemma UnquotedArgument(kind: string, name: string)
    requires Plain(name)
    ensures Argument(kind + name + ")", kind) == Some(name)
  {
    var fact := kind + name + ")";
    assert fact[|kind|..|fact| - 1] == name;
    QuotesStripped(name);
  }

  /** Facts as they stand in a token, letter by letter, and what is read from each; the quotes may be missing. */
  lemma FactsAsWritten(name: string)
    requires Plain(name)
    ensures Argument("tool(" + "\"" + name + "\")", TOOL) == Argument("tool(" + name + ")", TOOL) == Some(name)
    ensures Argument("tenant(" + "\"" + name + "\")", TENANT) == Argument("tenant(" + name + ")", TENANT) == Some(name)
    ensures Argument("agent(" + "\"" + name + "\")", AGENT) == Argument("agent(" + name + ")", AGENT) == Some(name)
    ensures Argument("task(" + "\"" + name + "\")", TASK) == Argument("task(" + name + ")", TASK) == Some(name)
  {
    forall kind | kind in {TOOL, TENANT, AGENT, TASK}
      ensures Argument(Fact(kind, name), kind) == Argument(kind + name + ")", kind) == Some(name)
    {
      ArgumentOfFact(kind, name);
      UnquotedArgument(kind, name);
    }
  }

  predicate OnlyQuotes(s: string) {
    forall c :: c in s ==> c == '"'
  }

  lemma {:induction false} LeftStripped(s: string) returns (quotes: string)
    ensures OnlyQuotes(quotes) && s == quotes + StripLeft(s)
    ensures StripLeft(s) != "" ==> StripLeft(s)[0] != '"'
    decreases |s|
  {
    if s != [] && s[0] == '"' {
      var rest := LeftStripped(s[1..]);
      quotes := "\"" + rest;
      assert s == "\"" + s[1..];
    } else {
      quotes := "";
    }
  }

  lemma {:induction false} RightStripped(s: string) returns (quotes: string)
    ensures OnlyQuotes(quotes) && s == StripRight(s) + quotes
    ensures StripRight(s) != "" ==> StripRight(s)[|StripRight(s)| - 1] != '"'
    decreases |s|
  {
    if s != [] && s[|s| - 1] == '"' {
      var rest := RightStripped(s[..|s| - 1]);
      quotes := rest + "\"";
      assert s == s[..|s| - 1] + "\"";
    } else {
      quotes := "";
    }
  }

  /** Stripping takes away the quotes at both ends, all of them and nothing else. */
  lemma StripQuotesMeaning(s: string) returns (left: string, right: string)
    ensures OnlyQuotes(left) && OnlyQuotes(right) && s == left + (StripQuotes(s) + right)
    ensures StripQuotes(s) == "" || Plain(StripQuotes(s))
  {
    left := LeftStripped(s);
    right := RightStripped(StripLeft(s));
    var inner, t := StripQuotes(s), StripLeft(s);
    assert t == inner + right;
    assert inner != "" ==> t[0] == inner[0];
  }

  /** Reading minted facts gives exactly the tools, in order, and the identities: no kind is taken for another. */
  lemma MintedFactsReadBack(tenant: string, agent: string, task: string, tools: seq<string>)
    requires Plain(tenant) && Plain(agent) && Plain(task) && forall t :: t in tools ==> Plain(t)
    ensures var facts := MintFacts(tenant, agent, task, tools);
            && ToolNames(facts) == tools
            && LastArgument(facts, TENANT) == Some(tenant)
            && LastArgument(facts, AGENT) == Some(agent)
            && LastArgument(facts, TASK) == Some(task)
  {
    var f1, f2, f3 := Fact(TENANT, tenant), Fact(AGENT, agent), Fact(TASK, task);
    ReadIdentity([], TENANT, tenant);
    ReadIdentity([] + [f1], AGENT, agent);
    ReadIdentity([] + [f1] + [f2], TASK, task);
    assert [] + [f1] + [f2] + [f3] == [f1, f2, f3];
    ToolFactsNames([f1, f2, f3], tools);
    ToolFactsIdentity([f1, f2, f3], tools, TENANT);
    ToolFactsIdentity([f1, f2, f3], tools, AGENT);
    ToolFactsIdentity([f1, f2, f3], tools, TASK);
  }
}
