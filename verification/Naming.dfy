/** Names of MCP tools: the server can be read off every name, and a combined tool set has no name twice. */
module Naming {
  import opened Common

  const MAX_TOOL_NAME: nat := 64
  const MAX_SERVER_NAME: nat := 32
  const PREFIX: string := "mcp__"
  const SEPARATOR: string := "__"
  const HASH_CHARS: nat := 8

  predicate IsAlphanumeric(c: char) {
    'a' <= c <= 'z' || 'A' <= c <= 'Z' || '0' <= c <= '9'
  }

  predicate IsAllowed(c: char) {
    IsAlphanumeric(c) || c == '_' || c == '-'
  }

  predicate AllAllowed(s: string) {
    forall i :: 0 <= i < |s| ==> IsAllowed(s[i])
  }

  predicate SeparatorAt(s: string, i: int) {
    0 <= i < |s| - 1 && s[i] == '_' && s[i + 1] == '_'
  }

  predicate ValidServer(name: string) {
    && name != "" && |name| <= MAX_SERVER_NAME && AllAllowed(name)
    && (forall i :: 0 <= i < |name| - 1 ==> !SeparatorAt(name, i))
    && name[|name| - 1] != '_'
  }

  function Clean(tool: string): (c: string)
    ensures |c| == |tool| && AllAllowed(c)
  {
    if tool == "" then ""
    else
      var last := tool[|tool| - 1];
      Clean(tool[..|tool| - 1]) + [if IsAllowed(last) then last else '_']
  }

  /** A hash function with eight hexadecimal digits. */
  ghost predicate IsHash(hash: string -> string) {
    forall t :: |hash(t)| == HASH_CHARS && AllAllowed(hash(t))
  }

  function ToolName(server: string, tool: string, hash: string -> string): string {
    var clean := Clean(tool);
    var name := PREFIX + server + SEPARATOR + clean;
    if clean == tool && tool != "" && |name| <= MAX_TOOL_NAME then name
    else
      var room := Monus(MAX_TOOL_NAME, |PREFIX| + |server| + |SEPARATOR| + 1 + |hash(tool)|);
      PREFIX + server + SEPARATOR + clean[..Min(room, |clean|)] + "_" + hash(tool)
  }

  // ----- reading the server off a name -----

  function FirstSeparator(s: string): (i: nat)
    ensures i <= |s| && forall k :: 0 <= k < i ==> !SeparatorAt(s, k)
    ensures i < |s| ==> SeparatorAt(s, i)
  {
    if s == "" then 0
    else if |s| >= 2 && s[0] == '_' && s[1] == '_' then 0
    else
      var i := FirstSeparator(s[1..]);
      assert forall k :: 0 < k < 1 + i ==> (SeparatorAt(s, k) <==> SeparatorAt(s[1..], k - 1));
      1 + i
  }

  /** What is between the prefix and the next separator. */
  function ServerOf(name: string): string {
    if |name| < |PREFIX| then "" else var rest := name[|PREFIX|..]; rest[..FirstSeparator(rest)]
  }

  lemma ServerThenSeparator(server: string, rest: string)
    requires ValidServer(server)
    ensures FirstSeparator(server + SEPARATOR + rest) == |server|
  {
    var s := server + SEPARATOR + rest;
    assert s[|server|] == '_' && s[|server| + 1] == '_';
    assert SeparatorAt(s, |server|);
    forall k | 0 <= k < |server|
      ensures !SeparatorAt(s, k)
    {
      assert s[k] == server[k];
      if k < |server| - 1 {
        assert s[k + 1] == server[k + 1] && !SeparatorAt(server, k);
      }
    }
  }

  lemma Regroup(a: string, b: string, c: string, d: string)
    ensures a + b + c + d == a + (b + c + d)
  {
  }

  lemma Shape(server: string, tool: string, hash: string -> string) returns (rest: string)
    requires ValidServer(server) && IsHash(hash)
    ensures ToolName(server, tool, hash) == PREFIX + (server + SEPARATOR + rest)
    ensures AllAllowed(rest) && |ToolName(server, tool, hash)| <= MAX_TOOL_NAME
  {
    hide ValidServer, IsAllowed;
    ServerFits(server);
    var clean := Clean(tool);
    hide Clean;
    var name := PREFIX + server + SEPARATOR + clean;
    if clean == tool && tool != "" && |name| <= MAX_TOOL_NAME {
      rest := clean;
      Regroup(PREFIX, server, SEPARATOR, rest);
    } else {
      var room := Monus(MAX_TOOL_NAME, |PREFIX| + |server| + |SEPARATOR| + 1 + |hash(tool)|);
      var head := clean[..Min(room, |clean|)];
      rest := HashedRest(head, hash(tool));
      var long := PREFIX + server + SEPARATOR + head + "_" + hash(tool);
      assert long == PREFIX + server + SEPARATOR + rest;
      Regroup(PREFIX, server, SEPARATOR, rest);
    }
  }

  lemma HashedRest(head: string, digits: string) returns (rest: string)
    requires AllAllowed(head) && AllAllowed(digits)
    ensures rest == head + "_" + digits && AllAllowed(rest) && |rest| == |head| + 1 + |digits|
  {
    rest := head + "_" + digits;
  }

  lemma ServerFits(server: string)
    requires ValidServer(server)
    ensures 0 < |server| <= MAX_SERVER_NAME && AllAllowed(server)
  {
  }

  /** Every name fits, uses allowed characters only, and tells its server. */
  lemma NameTellsServer(server: string, tool: string, hash: string -> string)
    requires ValidServer(server) && IsHash(hash)
    ensures var name := ToolName(server, tool, hash);
            && |PREFIX| <= |name| <= MAX_TOOL_NAME && AllAllowed(name)
            && name[..|PREFIX|] == PREFIX && ServerOf(name) == server
  {
    hide ValidServer, ToolName;
    var rest := Shape(server, tool, hash);
    ServerFits(server);
    ServerThenSeparator(server, rest);
    var name := ToolName(server, tool, hash);
    assert name[|PREFIX|..] == server + SEPARATOR + rest;
    assert AllAllowed(PREFIX) && AllAllowed(SEPARATOR);
  }

  /** A tool name that needs no change is itself what follows the separator, so distinct tools keep distinct names. */
  lemma UnchangedNamesDiffer(server: string, a: string, b: string, hash: string -> string)
    requires a != b && a != "" && b != "" && Clean(a) == a && Clean(b) == b
    requires |PREFIX + server + SEPARATOR + a| <= MAX_TOOL_NAME && |PREFIX + server + SEPARATOR + b| <= MAX_TOOL_NAME
    ensures ToolName(server, a, hash) != ToolName(server, b, hash)
  {
    var p := PREFIX + server + SEPARATOR;
    assert (p + a)[|p|..] == a && (p + b)[|p|..] == b;
  }

  /** A text with every character that is not allowed replaced by an underscore. */
  predicate IsCleaned(clean: string, text: string) {
    |clean| == |text| && forall i :: 0 <= i < |text| ==> clean[i] == if IsAllowed(text[i]) then text[i] else '_'
  }

  lemma {:induction false} CleanIsCleaned(tool: string)
    ensures IsCleaned(Clean(tool), tool) && (Clean(tool) == tool <==> AllAllowed(tool))
  {
    hide IsAllowed;
    if tool != "" {
      var init := tool[..|tool| - 1];
      CleanIsCleaned(init);
      assert Clean(tool)[..|init|] == Clean(init);
      assert tool == init + [tool[|tool| - 1]];
    }
  }

  /**
   A usable tool name that fits is kept as it is. Any other is cleaned, cut only as far as needed, and told apart by the
   hash of the whole name.
   */
  lemma ToolNameIs(server: string, tool: string, hash: string -> string) returns (head: string)
    requires ValidServer(server) && IsHash(hash)
    ensures var name, whole := ToolName(server, tool, hash), PREFIX + server + SEPARATOR + tool;
            if AllAllowed(tool) && tool != "" && |whole| <= MAX_TOOL_NAME then name == whole
            else
              && name == PREFIX + server + SEPARATOR + head + "_" + hash(tool)
              && |head| <= |tool| && IsCleaned(head, tool[..|head|]) && (|head| < |tool| ==> |name| == MAX_TOOL_NAME)
  {
    hide ValidServer, IsAllowed, AllAllowed, Clean;
    ServerFits(server);
    CleanIsCleaned(tool);
    var room := Monus(MAX_TOOL_NAME, |PREFIX| + |server| + |SEPARATOR| + 1 + |hash(tool)|);
    head := Clean(tool)[..Min(room, |tool|)];
  }

  // ----- listings -----

  datatype Tool = Tool(name: string, remote: string)

  function CountName(tools: seq<Tool>, name: string): nat {
    if tools == [] then 0
    else CountName(tools[..|tools| - 1], name) + if tools[|tools| - 1].name == name then 1 else 0
  }

  /** The tools whose name no other tool of the list has, in order. */
  function UniqueOnly(tools: seq<Tool>, among: seq<Tool>): seq<Tool> {
    if tools == [] then []
    else
      var last, before := tools[|tools| - 1], UniqueOnly(tools[..|tools| - 1], among);
      if CountName(among, last.name) == 1 then before + [last] else before
  }

  /** No other tool of the list has the name of this one. */
  predicate IsLone(tools: seq<Tool>, i: nat)
    requires i < |tools|
  {
    forall j :: 0 <= j < |tools| && j != i ==> tools[j].name != tools[i].name
  }

  /** What is kept are the lone tools among the first `n`, in order; `places` are where they stood. */
  ghost predicate KeptAt(tools: seq<Tool>, n: nat, kept: seq<Tool>, places: seq<nat>)
    requires n <= |tools|
  {
    && |places| == |kept| && (forall k, l :: 0 <= k < l < |places| ==> places[k] < places[l])
    && (forall k :: 0 <= k < |places| ==> places[k] < n && kept[k] == tools[places[k]])
    && (forall i: nat :: i < n ==> (i in places <==> IsLone(tools, i)))
  }

  ghost predicate IsListing(tools: seq<Tool>, kept: seq<Tool>) {
    exists places: seq<nat> :: KeptAt(tools, |tools|, kept, places)
  }

  lemma {:induction false} CountNone(tools: seq<Tool>, name: string)
    ensures CountName(tools, name) == 0 <==> forall i :: 0 <= i < |tools| ==> tools[i].name != name
  {
    if tools != [] {
      CountNone(tools[..|tools| - 1], name);
    }
  }

  lemma {:induction false} CountLone(tools: seq<Tool>, i: nat)
    requires i < |tools|
    ensures CountName(tools, tools[i].name) == 1 <==> IsLone(tools, i)
  {
    var n := |tools| - 1;
    var init := tools[..n];
    if i == n {
      CountNone(init, tools[i].name);
      assert forall j :: 0 <= j < n ==> init[j] == tools[j];
    } else {
      CountLone(init, i);
      CountPositive(init, i);
      assert forall j :: 0 <= j < n ==> init[j] == tools[j];
    }
  }

  lemma {:induction false} KeptPlaces(tools: seq<Tool>, n: nat) returns (places: seq<nat>)
    requires n <= |tools|
    ensures KeptAt(tools, n, UniqueOnly(tools[..n], tools), places)
  {
    hide IsLone;
    if n == 0 {
      places := [];
    } else {
      places := KeptPlaces(tools, n - 1);
      assert tools[..n][..n - 1] == tools[..n - 1];
      CountLone(tools, n - 1);
      if CountName(tools, tools[n - 1].name) == 1 {
        places := places + [n - 1];
      }
    }
  }

  lemma UniqueIsListing(tools: seq<Tool>)
    ensures IsListing(tools, UniqueOnly(tools, tools))
  {
    var places := KeptPlaces(tools, |tools|);
    assert tools[..|tools|] == tools;
  }

  lemma {:induction false} CountMany(tools: seq<Tool>, name: string)
    ensures CountName(tools, name) > 1 <==> exists i, j :: 0 <= i < j < |tools| && tools[i].name == tools[j].name == name
  {
    if i, j :| 0 <= i < j < |tools| && tools[i].name == tools[j].name == name {
      CountTwice(tools, i, j);
    }
    if CountName(tools, name) > 1 {
      var n := |tools| - 1;
      var init := tools[..n];
      CountMany(init, name);
      if CountName(init, name) > 1 {
        var i, j :| 0 <= i < j < n && init[i].name == init[j].name == name;
        assert tools[i].name == tools[j].name == name;
      } else {
        CountNone(init, name);
        var i :| 0 <= i < n && init[i].name == name;
        assert tools[i].name == tools[n].name == name;
      }
    }
  }

  lemma NothingCounted(tools: seq<Tool>)
    ensures UniqueOnly(tools[..0], tools) == [] && forall name :: CountName(tools[..0], name) == 0
  {
  }

  lemma CountSnoc(tools: seq<Tool>, i: nat)
    requires i < |tools|
    ensures forall name :: CountName(tools[..i + 1], name) == CountName(tools[..i], name) + if tools[i].name == name then 1 else 0
    ensures UniqueOnly(tools[..i + 1], tools)
         == UniqueOnly(tools[..i], tools) + if CountName(tools, tools[i].name) == 1 then [tools[i]] else []
  {
    assert tools[..i + 1][..i] == tools[..i];
  }

  /** Drops every tool whose name another tool also has, and says which names these are. */
  method NewListing(tools: seq<Tool>) returns (kept: seq<Tool>, warned: set<string>)
    ensures kept == UniqueOnly(tools, tools) && IsListing(tools, kept)
    ensures forall name :: name in warned
              <==> exists i, j :: 0 <= i < j < |tools| && tools[i].name == tools[j].name == name
  {
    hide IsListing, CountName, UniqueOnly;
    UniqueIsListing(tools);
    NothingCounted(tools);
    forall name
      ensures CountName(tools, name) > 1
              <==> exists i, j :: 0 <= i < j < |tools| && tools[i].name == tools[j].name == name
    {
      CountMany(tools, name);
    }
    var names: map<string, nat> := map[];
    var i := 0;
    while i < |tools|
      invariant 0 <= i <= |tools|
      invariant forall name :: name in names <==> CountName(tools[..i], name) > 0
      invariant forall name :: name in names ==> names[name] == CountName(tools[..i], name)
    {
      CountSnoc(tools, i);
      var name := tools[i].name;
      names := names[name := (if name in names then names[name] else 0) + 1];
      i := i + 1;
    }
    assert tools[..i] == tools;
    warned := set name | name in names && names[name] > 1;
    kept := [];
    i := 0;
    while i < |tools|
      invariant 0 <= i <= |tools| && kept == UniqueOnly(tools[..i], tools)
    {
      CountSnoc(tools, i);
      CountPositive(tools, i);
      if names[tools[i].name] == 1 {
        kept := kept + [tools[i]];
      }
      i := i + 1;
    }
    assert tools[..i] == tools;
  }

  lemma {:induction false} CountPositive(tools: seq<Tool>, i: nat)
    requires i < |tools|
    ensures CountName(tools, tools[i].name) > 0
  {
    if i < |tools| - 1 {
      CountPositive(tools[..|tools| - 1], i);
    }
  }

  predicate Distinct(tools: seq<Tool>) {
    forall i, j :: 0 <= i < j < |tools| ==> tools[i].name != tools[j].name
  }

  lemma {:induction false} CountTwice(tools: seq<Tool>, i: nat, j: nat)
    requires i < j < |tools| && tools[i].name == tools[j].name
    ensures CountName(tools, tools[i].name) >= 2
  {
    if j == |tools| - 1 {
      CountPositive(tools[..j], i);
    } else {
      CountTwice(tools[..|tools| - 1], i, j);
    }
  }

  lemma {:induction false} KeptFrom(tools: seq<Tool>, among: seq<Tool>)
    ensures forall t :: t in UniqueOnly(tools, among) ==> t in tools && CountName(among, t.name) == 1
  {
    if tools != [] {
      KeptFrom(tools[..|tools| - 1], among);
    }
  }

  lemma {:induction false} CountSubset(tools: seq<Tool>, among: seq<Tool>, name: string)
    ensures CountName(UniqueOnly(tools, among), name) <= CountName(tools, name)
  {
    if tools != [] {
      var init := tools[..|tools| - 1];
      CountSubset(init, among, name);
      var before := UniqueOnly(init, among);
      assert (before + [tools[|tools| - 1]])[..|before|] == before;
    }
  }

  /** A listing has no name twice. */
  lemma ListingDistinct(tools: seq<Tool>)
    ensures Distinct(UniqueOnly(tools, tools))
  {
    var kept := UniqueOnly(tools, tools);
    KeptFrom(tools, tools);
    forall i, j | 0 <= i < j < |kept|
      ensures kept[i].name != kept[j].name
    {
      assert kept[i] in kept;
      if kept[i].name == kept[j].name {
        CountTwice(kept, i, j);
        CountSubset(tools, tools, kept[i].name);
      }
    }
  }

  // ----- the combined tool set -----

  /** Freezes a list of tools by name, or fails when a name comes twice. */
  method NewToolset(tools: seq<Tool>) returns (result: Result<map<string, Tool>, string>)
    ensures result.Ok? <==> Distinct(tools)
    ensures result.Ok? ==> forall name :: name in result.value <==> exists i :: 0 <= i < |tools| && tools[i].name == name
    ensures result.Ok? ==> forall i :: 0 <= i < |tools| ==> tools[i].name in result.value && result.value[tools[i].name] == tools[i]
  {
    var entries: map<string, Tool> := map[];
    var i := 0;
    while i < |tools|
      invariant 0 <= i <= |tools| && Distinct(tools[..i])
      invariant forall name :: name in entries <==> exists k :: 0 <= k < i && tools[k].name == name
      invariant forall k :: 0 <= k < i ==> tools[k].name in entries && entries[tools[k].name] == tools[k]
    {
      if tools[i].name in entries {
        return Err("duplicate tool name");
      }
      entries := entries[tools[i].name := tools[i]];
      i := i + 1;
    }
    assert tools[..i] == tools;
    result := Ok(entries);
  }

  /** A server and what it lists. */
  datatype Server = Server(name: string, remotes: seq<string>)

  function ServerTools(s: Server, hash: string -> string): seq<Tool> {
    seq(|s.remotes|, i requires 0 <= i < |s.remotes| => Tool(ToolName(s.name, s.remotes[i], hash), s.remotes[i]))
  }

  function Offered(servers: seq<Server>, hash: string -> string): seq<Tool> {
    if servers == [] then []
    else
      var tools := ServerTools(servers[|servers| - 1], hash);
      Offered(servers[..|servers| - 1], hash) + UniqueOnly(tools, tools)
  }

  /** Configured servers have valid and distinct names. */
  predicate Configured(servers: seq<Server>) {
    && (forall s :: s in servers ==> ValidServer(s.name))
    && (forall i, j :: 0 <= i < j < |servers| ==> servers[i].name != servers[j].name)
  }

  /** A tool whose name tells this server. */
  predicate Tells(t: Tool, server: string) {
    HasPrefix(t) && ServerOf(t.name) == server
  }

  predicate HasPrefix(t: Tool) {
    |t.name| >= |PREFIX| && t.name[..|PREFIX|] == PREFIX
  }

  lemma ServerToolsTell(s: Server, hash: string -> string)
    requires ValidServer(s.name) && IsHash(hash)
    ensures forall t :: t in ServerTools(s, hash) ==> Tells(t, s.name)
  {
    hide ToolName, ValidServer, ServerOf, IsHash;
    var tools := ServerTools(s, hash);
    forall t | t in tools
      ensures Tells(t, s.name)
    {
      var i :| 0 <= i < |tools| && tools[i] == t;
      NameTellsServer(s.name, s.remotes[i], hash);
    }
  }

  /** Every offered tool tells a configured server. */
  lemma {:induction false} OfferedTellServer(servers: seq<Server>, hash: string -> string)
    requires Configured(servers) && IsHash(hash)
    ensures forall t :: t in Offered(servers, hash) ==> exists s :: s in servers && Tells(t, s.name)
  {
    hide Tells, ValidServer, IsHash, ServerTools;
    if servers != [] {
      var last, init := servers[|servers| - 1], servers[..|servers| - 1];
      OfferedTellServer(init, hash);
      var tools := ServerTools(last, hash);
      ServerToolsTell(last, hash);
      KeptFrom(tools, tools);
      assert forall s :: s in init ==> s in servers;
      forall t | t in Offered(servers, hash)
        ensures exists s :: s in servers && Tells(t, s.name)
      {
        if t !in Offered(init, hash) {
          assert t in tools && Tells(t, last.name);
        }
      }
    }
  }

  lemma {:induction false} OfferedDistinct(servers: seq<Server>, hash: string -> string)
    requires Configured(servers) && IsHash(hash)
    ensures Distinct(Offered(servers, hash))
  {
    hide ValidServer, ServerOf, IsHash, UniqueOnly, ServerTools;
    if servers != [] {
      var last, init := servers[|servers| - 1], servers[..|servers| - 1];
      OfferedDistinct(init, hash);
      OfferedTellServer(init, hash);
      var tools := ServerTools(last, hash);
      ServerToolsTell(last, hash);
      KeptFrom(tools, tools);
      ListingDistinct(tools);
      var before, kept := Offered(init, hash), UniqueOnly(tools, tools);
      forall i, j | 0 <= i < |before| && 0 <= j < |kept|
        ensures before[i].name != kept[j].name
      {
        assert before[i] in before && kept[j] in kept;
        var s :| s in init && Tells(before[i], s.name);
        assert Tells(kept[j], last.name);
      }
    }
  }

  /**
   The snapshot of unique built-in tools, none named like a server's tool, and of all servers has no name twice,
   whatever the servers list and however the hash collides.
   */
  lemma SnapshotDistinct(builtIn: seq<Tool>, servers: seq<Server>, hash: string -> string)
    requires Distinct(builtIn) && Configured(servers) && IsHash(hash)
    requires forall t :: t in builtIn ==> !HasPrefix(t)
    ensures Distinct(builtIn + Offered(servers, hash))
  {
    hide ToolName, ValidServer, ServerOf, IsHash, UniqueOnly, Offered;
    OfferedDistinct(servers, hash);
    OfferedTellServer(servers, hash);
    var offered := Offered(servers, hash);
    forall i, j | 0 <= i < |builtIn| && 0 <= j < |offered|
      ensures builtIn[i].name != offered[j].name
    {
      assert builtIn[i] in builtIn && offered[j] in offered;
    }
  }

  /** A server lists a tool under a name that none of its other tools gets. */
  predicate IsLoneRemote(s: Server, i: nat, hash: string -> string)
    requires i < |s.remotes|
  {
    forall j :: 0 <= j < |s.remotes| && j != i ==> ToolName(s.name, s.remotes[j], hash) != ToolName(s.name, s.remotes[i], hash)
  }

  lemma LoneIsListed(s: Server, i: nat, hash: string -> string)
    requires i < |s.remotes| && IsLoneRemote(s, i, hash)
    ensures var tools := ServerTools(s, hash);
            Tool(ToolName(s.name, s.remotes[i], hash), s.remotes[i]) in UniqueOnly(tools, tools)
  {
    hide ToolName;
    var tools := ServerTools(s, hash);
    assert IsLone(tools, i);
    var places := KeptPlaces(tools, |tools|);
    assert tools[..|tools|] == tools;
    assert i in places;
  }

  /** Every such tool of every server is offered. */
  lemma {:induction false} LoneIsOffered(servers: seq<Server>, k: nat, i: nat, hash: string -> string)
    requires k < |servers| && i < |servers[k].remotes| && IsLoneRemote(servers[k], i, hash)
    ensures Tool(ToolName(servers[k].name, servers[k].remotes[i], hash), servers[k].remotes[i]) in Offered(servers, hash)
  {
    hide ToolName, IsLoneRemote, ServerTools, UniqueOnly;
    if k < |servers| - 1 {
      LoneIsOffered(servers[..|servers| - 1], k, i, hash);
    } else {
      LoneIsListed(servers[k], i, hash);
    }
  }

  /** So making the tool set of a snapshot never fails. */
  method Snapshot(builtIn: seq<Tool>, servers: seq<Server>, hash: string -> string) returns (result: Result<map<string, Tool>, string>)
    requires Distinct(builtIn) && Configured(servers) && IsHash(hash)
    requires forall t :: t in builtIn ==> !HasPrefix(t)
    ensures result.Ok?
    ensures forall t :: t in builtIn + Offered(servers, hash) ==> t.name in result.value && result.value[t.name] == t
    ensures forall k, i: nat :: 0 <= k < |servers| && i < |servers[k].remotes| && IsLoneRemote(servers[k], i, hash) ==>
              var name := ToolName(servers[k].name, servers[k].remotes[i], hash);
              name in result.value && result.value[name] == Tool(name, servers[k].remotes[i])
  {
    hide ToolName, IsLoneRemote, IsHash, Configured, Distinct, HasPrefix, UniqueOnly, ServerTools;
    var tools := builtIn;
    var i := 0;
    assert Offered(servers[..0], hash) == [];
    while i < |servers|
      invariant 0 <= i <= |servers| && tools == builtIn + Offered(servers[..i], hash)
    {
      assert servers[..i + 1][..i] == servers[..i];
      var kept, warned := NewListing(ServerTools(servers[i], hash));
      tools := tools + kept;
      i := i + 1;
    }
    assert servers[..i] == servers;
    SnapshotDistinct(builtIn, servers, hash);
    forall k, i: nat | 0 <= k < |servers| && i < |servers[k].remotes| && IsLoneRemote(servers[k], i, hash)
      ensures Tool(ToolName(servers[k].name, servers[k].remotes[i], hash), servers[k].remotes[i]) in tools
    {
      LoneIsOffered(servers, k, i, hash);
    }
    result := NewToolset(tools);
  }
}
