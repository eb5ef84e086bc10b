/** Prefixed tool names, and the token estimates of a server and of its tools. */
module ToolTokens {
  import opened Base

  const DELIMITER := "__"

  predicate DelimiterAt(s: string, i: nat) {
    i + 1 < |s| && s[i] == '_' && s[i + 1] == '_'
  }

  /** Position of the first delimiter, or the length. */
  function FirstDelimiter(s: string): (i: nat)
    ensures i <= |s|
    ensures i < |s| ==> DelimiterAt(s, i)
    ensures forall j | 0 <= j < i :: !DelimiterAt(s, j)
  {
    if s == "" || DelimiterAt(s, 0) then 0 else
      var i := FirstDelimiter(s[1..]);
      assert forall j | 1 <= j < i + 1 :: DelimiterAt(s, j) <==> DelimiterAt(s[1..], j - 1);
      i + 1
  }

  function Split(prefixed: string): Option<(string, string)> {
    var i := FirstDelimiter(prefixed);
    if i == |prefixed| || i == 0 || i + 2 >= |prefixed| then None else Some((prefixed[..i], prefixed[i + 2..]))
  }

  function Join(server: string, tool: string): string { server + DELIMITER + tool }

  /** A successful split gives the name back, so different names have different parts. */
  lemma JoinUndoesSplit(prefixed: string)
    requires Split(prefixed).Some?
    ensures var (server, tool) := Split(prefixed).value; server != "" && tool != "" && Join(server, tool) == prefixed
    ensures var (server, tool) := Split(prefixed).value; prefixed == server + "__" + tool
  {
    var i := FirstDelimiter(prefixed);
    assert prefixed[i..i + 2] == DELIMITER;
  }

  /** A joined name splits into its parts exactly when both are there and no delimiter begins earlier. */
  lemma SplitUndoesJoin(server: string, tool: string)
    ensures Split(Join(server, tool)) == Some((server, tool))
            <==> server != "" && tool != "" && forall j | 0 <= j < |server| :: !DelimiterAt(server + "_", j)
  {
    var s := Join(server, tool);
    assert DelimiterAt(s, |server|);
    assert forall j | 0 <= j < |server| :: DelimiterAt(s, j) <==> DelimiterAt(server + "_", j);
    var i := FirstDelimiter(s);
    if i == |server| { assert s[..i] == server && s[i + 2..] == tool; }
  }

  /***** Estimates *****/

  /** A listed tool, and the size of its description unless that could not be encoded. */
  datatype Tool = Tool(name: string, size: Option<nat>)

  predicate Counts(t: Tool, server: string) {
    t.size.Some? && Split(t.name).Some? && Split(t.name).value.0 == server
  }

  function Bytes(tools: seq<Tool>, server: string): nat {
    if tools == [] then 0
    else Bytes(tools[..|tools| - 1], server) + if Counts(tools[|tools| - 1], server)
        then tools[|tools| - 1].size.value else 0
  }

  function Tokens(tools: seq<Tool>, server: string): nat {
    if tools == [] then 0
    else Tokens(tools[..|tools| - 1], server) + if Counts(tools[|tools| - 1], server)
        then tools[|tools| - 1].size.value / 4 else 0
  }

  function ToolCount(tools: seq<Tool>, server: string): nat {
    if tools == [] then 0
    else ToolCount(tools[..|tools| - 1], server) + if Counts(tools[|tools| - 1], server) then 1 else 0
  }

  /** The size counted last for a tool of a server. */
  function LastSize(tools: seq<Tool>, server: string, tool: string): Option<nat> {
    if tools == [] then None
    else
      var last := tools[|tools| - 1];
      if last.size.Some? && Split(last.name) == Some((server, tool)) then last.size
      else LastSize(tools[..|tools| - 1], server, tool)
  }

  lemma {:induction false} LastSizeIsListed(tools: seq<Tool>, server: string, tool: string)
    ensures LastSize(tools, server, tool).Some? ==> exists i | 0 <= i < |tools| :: tools[i].name == Join(server, tool)
  {
    if tools != [] {
      var most, last := tools[..|tools| - 1], tools[|tools| - 1];
      LastSizeIsListed(most, server, tool);
      if last.size.Some? && Split(last.name) == Some((server, tool)) {
        JoinUndoesSplit(last.name);
        assert tools[|tools| - 1].name == Join(server, tool);
      } else if LastSize(most, server, tool).Some? {
        var i :| 0 <= i < |most| && most[i].name == Join(server, tool);
        assert tools[i].name == Join(server, tool);
      }
    }
  }

  /** Rounding each tool down loses at most three quarters of a token each. */
  lemma {:induction false} RoundingLoss(tools: seq<Tool>, server: string)
    ensures 4 * Tokens(tools, server) <= Bytes(tools, server) <= 4 * Tokens(tools, server) + 3 * ToolCount(tools,
            server)
  {
    if tools != [] { RoundingLoss(tools[..|tools| - 1], server); }
  }

  /** The sum of the values of a map. */
  ghost function Sum(m: map<string, nat>): nat
    decreases |m|
  {
    if m == map[] then 0 else
      var k :| k in m;
      assert |m - {k}| < |m| by { assert m.Keys == (m - {k}).Keys + {k}; }
      m[k] + Sum(m - {k})
  }

  lemma {:induction false} SumWithout(m: map<string, nat>, k: string)
    requires k in m
    ensures Sum(m) == m[k] + Sum(m - {k})
    decreases |m|
  {
    var first :| first in m && Sum(m) == m[first] + Sum(m - {first});
    if first != k {
      assert |m - {first}| < |m| by { assert m.Keys == (m - {first}).Keys + {first}; }
      assert |m - {k}| < |m| by { assert m.Keys == (m - {k}).Keys + {k}; }
      SumWithout(m - {first}, k);
      SumWithout(m - {k}, first);
      assert m - {first} - {k} == m - {k} - {first};
    }
  }

  lemma SumAdded(m: map<string, nat>, k: string, v: nat)
    ensures Sum(m[k := v]) == Sum(m) + v - (if k in m then m[k] else 0)
  {
    SumWithout(m[k := v], k);
    assert m[k := v] - {k} == m - {k};
    if k in m {
      SumWithout(m, k);
    } else {
      assert m - {k} == m;
    }
  }

  type PerTool = map<string, map<string, nat>>

  /** The estimates of one server's tools. */
  function ToolsOf(perTool: PerTool, server: string): map<string, nat> {
    if server in perTool then perTool[server] else map[]
  }

  ghost predicate DistinctNames(tools: seq<Tool>) {
    forall i, j | 0 <= i < j < |tools| :: tools[i].name != tools[j].name
  }

  /** A server is listed when one of its tools counts; a tool's estimate is a quarter of the size counted last. */
  ghost predicate Listed(tools: seq<Tool>, servers: set<string>, perTool: PerTool) {
    && (forall server :: server in servers <==> ToolCount(tools, server) > 0)
    && (forall server, tool ::
          && (tool in ToolsOf(perTool, server) <==> LastSize(tools, server, tool).Some?)
          && (tool in ToolsOf(perTool, server) ==>
              ToolsOf(perTool, server)[tool] == LastSize(tools, server, tool).value / 4))
  }

  /** The counters after a prefix of the list. */
  ghost predicate Counted(tools: seq<Tool>, bytes: map<string, nat>, perTool: PerTool) {
    && (forall server :: (if server in bytes then bytes[server] else 0) == Bytes(tools, server))
    && (forall server :: Sum(ToolsOf(perTool, server)) <= Tokens(tools, server))
    && (DistinctNames(tools) ==> forall server :: Sum(ToolsOf(perTool, server)) == Tokens(tools, server))
    && Listed(tools, bytes.Keys, perTool)
  }

  /** One tool more in the counters. */
  function AddBytes(bytes: map<string, nat>, server: string, size: nat): map<string, nat> {
    bytes[server := (if server in bytes then bytes[server] else 0) + size]
  }

  function AddTool(perTool: PerTool, server: string, tool: string, size: nat): PerTool {
    perTool[server := ToolsOf(perTool, server)[tool := size / 4]]
  }

  /** What one tool adds to the sums. */
  lemma Added(tools: seq<Tool>, perTool: PerTool, server: string, tool: string, size: nat, s: string)
    requires tools != [] && tools[|tools| - 1] == Tool(Join(server, tool), Some(size))
    requires Split(Join(server, tool)) == Some((server, tool))
    ensures var before := tools[..|tools| - 1];
            && Bytes(tools, s) == Bytes(before, s) + (if s == server then size else 0)
            && Tokens(tools, s) == Tokens(before, s) + (if s == server then size / 4 else 0)
    ensures var mine := ToolsOf(perTool, server);
            Sum(ToolsOf(AddTool(perTool, server, tool, size), s)) ==
            if s == server then Sum(mine) + size / 4 - (if tool in mine then mine[tool] else 0)
                else Sum(ToolsOf(perTool, s))
  {
    assert Counts(tools[|tools| - 1], s) <==> s == server;
    SumAdded(ToolsOf(perTool, server), tool, size / 4);
  }

  lemma ListedOneMore(before: seq<Tool>, after: seq<Tool>, servers: set<string>, perTool: PerTool, server: string,
                      tool: string, size: nat)
    requires Listed(before, servers, perTool) && after != [] && before == after[..|after| - 1]
    requires after[|after| - 1] == Tool(Join(server, tool), Some(size))
            && Split(Join(server, tool)) == Some((server, tool))
    ensures Listed(after, servers + {server}, AddTool(perTool, server, tool, size))
  {
    var next := AddTool(perTool, server, tool, size);
    forall s, x
      ensures x in ToolsOf(next, s) <==> LastSize(after, s, x).Some?
      ensures x in ToolsOf(next, s) ==> ToolsOf(next, s)[x] == LastSize(after, s, x).value / 4
    {
      assert LastSize(after, s, x) == if s == server && x == tool then Some(size) else LastSize(before, s, x);
      assert ToolsOf(next, s) == if s == server then ToolsOf(perTool, s)[tool := size / 4] else ToolsOf(perTool, s);
    }
    forall s ensures ToolCount(after, s) == ToolCount(before, s) + if s == server then 1 else 0 {
      assert Counts(after[|after| - 1], s) <==> s == server;
    }
  }

  lemma OneMoreTool(tools: seq<Tool>, i: nat, bytes: map<string, nat>, perTool: PerTool)
    requires i < |tools| && Counted(tools[..i], bytes, perTool)
    requires tools[i].size.Some? && Split(tools[i].name).Some?
    ensures var (server, tool) := Split(tools[i].name).value;
            var size := tools[i].size.value;
            Counted(tools[..i + 1], AddBytes(bytes, server, size), AddTool(perTool, server, tool, size))
  {
    var before, after, t := tools[..i], tools[..i + 1], tools[i];
    var (server, tool) := Split(t.name).value;
    var size := t.size.value;
    assert after[..|after| - 1] == before && after[|after| - 1] == t;
    JoinUndoesSplit(t.name);
    ListedOneMore(before, after, bytes.Keys, perTool, server, tool, size);
    assert AddBytes(bytes, server, size).Keys == bytes.Keys + {server};
    forall s
      ensures Bytes(after, s) == Bytes(before, s) + (if s == server then size else 0)
      ensures Sum(ToolsOf(AddTool(perTool, server, tool, size), s)) <= Tokens(after, s)
    {
      Added(after, perTool, server, tool, size, s);
    }
    if DistinctNames(after) { DistinctSums(before, after, perTool, server, tool, size); }
  }

  /** For distinct names the sums of the tools stay exact. */
  lemma DistinctSums(before: seq<Tool>, after: seq<Tool>, perTool: PerTool, server: string, tool: string, size: nat)
    requires after == before + [Tool(Join(server, tool), Some(size))] && DistinctNames(after)
    requires Split(Join(server, tool)) == Some((server, tool))
    requires forall x :: x in ToolsOf(perTool, server) <==> LastSize(before, server, x).Some?
    requires DistinctNames(before) ==> forall s :: Sum(ToolsOf(perTool, s)) == Tokens(before, s)
    ensures forall s :: Sum(ToolsOf(AddTool(perTool, server, tool, size), s)) == Tokens(after, s)
  {
    assert forall j | 0 <= j < |before| :: before[j] == after[j];
    assert after[|before|].name == Join(server, tool) && DistinctNames(before);
    LastSizeIsListed(before, server, tool);
    assert tool !in ToolsOf(perTool, server) && after[..|after| - 1] == before;
    forall s ensures Sum(ToolsOf(AddTool(perTool, server, tool, size), s)) == Tokens(after, s) {
      Added(after, perTool, server, tool, size, s);
    }
  }

  lemma SkippedTool(tools: seq<Tool>, i: nat, bytes: map<string, nat>, perTool: PerTool)
    requires i < |tools| && Counted(tools[..i], bytes, perTool)
    requires tools[i].size.None? || Split(tools[i].name).None?
    ensures Counted(tools[..i + 1], bytes, perTool)
  {
    var before, after := tools[..i], tools[..i + 1];
    assert after[..|after| - 1] == before && after[|after| - 1] == tools[i];
    assert forall s :: !Counts(tools[i], s);
    forall s, x ensures LastSize(after, s, x) == LastSize(before, s, x) {}
    forall s ensures ToolCount(after, s) == ToolCount(before, s) {}
    forall s ensures Tokens(after, s) == Tokens(before, s) && Bytes(after, s) == Bytes(before, s) {}
  }

  /**
   The estimates of one listing: exactly the servers with a tool that counts, and for each of their tools a quarter
   of the size counted last. The estimates of a server's tools never add up to more than the estimate of
   the server; for distinct tool names they fall short by at most three quarters of a token per tool.
   */
  method ComputeSchemaTokens(tools: seq<Tool>) returns (perServer: map<string, nat>, perTool: PerTool)
    ensures Listed(tools, perServer.Keys, perTool)
    ensures forall server | server in perServer ::
              && perServer[server] == Bytes(tools, server) / 4
              && Sum(ToolsOf(perTool, server)) <= perServer[server]
              && (DistinctNames(tools) ==>
                  4 * (perServer[server] - Sum(ToolsOf(perTool, server))) <= 3 * ToolCount(tools, server))
  {
    var bytes: map<string, nat> := map[];
    perTool := map[];
    for i := 0 to |tools|
      invariant Counted(tools[..i], bytes, perTool)
    {
      var parts := Split(tools[i].name);
      if parts.None? || tools[i].size.None? {
        SkippedTool(tools, i, bytes, perTool);
      } else {
        OneMoreTool(tools, i, bytes, perTool);
        bytes := AddBytes(bytes, parts.value.0, tools[i].size.value);
        perTool := AddTool(perTool, parts.value.0, parts.value.1, tools[i].size.value);
      }
    }
    assert tools[..|tools|] == tools;
    perServer := map server | server in bytes :: bytes[server] / 4;
    assert perServer.Keys == bytes.Keys;
    forall server | server in perServer ensures 4 * Tokens(tools, server) <= Bytes(tools, server) <= 4 * Tokens(tools,
        server) + 3 * ToolCount(tools, server) {
      RoundingLoss(tools, server);
    }
  }
}
