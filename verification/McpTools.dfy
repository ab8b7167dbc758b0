/** src/mcp/mod.rs: what `tools/list` shows and what `tools/call` runs. */
module McpTools {
  import opened Wrappers
  import opened Namespace
  import opened Sequences
  import opened PathKeys

  datatype Schema = Derived(flags: set<string>) | Given(text: string)

  datatype Presentation = Presentation(description: string, schema: Schema)

  datatype DynamicTool = DynamicTool(name: string, command: Command, presentation: Option<Presentation>)

  datatype Descriptor = Descriptor(
    name: string,
    description: string,
    schema: Schema,
    meta: Option<string>,
    visibility: Option<seq<string>>)

  type Tools = map<string, Command>

  /** `command_to_tool_descriptor_full` and, with a presentation, `command_to_tool_descriptor_presented`. */
  function Describe(name: string, c: Command, p: Option<Presentation>): Descriptor {
    match p
    case None => Descriptor(name, c.summary, Derived(c.flags), c.meta, c.visibility)
    case Some(given) => Descriptor(name, given.description, given.schema, c.meta, c.visibility)
  }

  // ---------------------------------------------------------------- dispatch

  /** `into_iter().find(|tool| tool.name == name)`: the first offer of a name, as an index. */
  function FirstOffer(provided: seq<DynamicTool>, name: string): (i: Option<nat>)
    ensures i.None? <==> forall j :: 0 <= j < |provided| ==> provided[j].name != name
    ensures i.Some? ==> i.value < |provided| && provided[i.value].name == name
                        && forall j :: 0 <= j < i.value ==> provided[j].name != name
  {
    if provided == [] then None
    else if provided[0].name == name then Some(0)
    else match FirstOffer(provided[1..], name)
      case None => None
      case Some(k) => Some(k + 1)
  }

  /** The command a call of `name` runs: a static tool, else the first one the provider offers for this caller. */
  function Dispatch(tools: Tools, provided: seq<DynamicTool>, name: string): Option<Command> {
    if name in tools then Some(tools[name])
    else match FirstOffer(provided, name)
      case None => None
      case Some(i) => Some(provided[i].command)
  }

  /** Some offer before the n-th has this name. */
  ghost predicate OfferedBefore(provided: seq<DynamicTool>, n: nat, name: string)
    requires n <= |provided|
  {
    exists j :: 0 <= j < n && provided[j].name == name
  }

  lemma {:induction false} OfferedStep(provided: seq<DynamicTool>, n: nat)
    requires n < |provided|
    ensures forall name :: OfferedBefore(provided, n + 1, name) <==> OfferedBefore(provided, n, name) || provided[n].name == name
  {
    forall name ensures OfferedBefore(provided, n + 1, name) <==> OfferedBefore(provided, n, name) || provided[n].name == name {
      if OfferedBefore(provided, n + 1, name) {
        var j :| 0 <= j < n + 1 && provided[j].name == name;
        assert j == n || OfferedBefore(provided, n, name);
      }
    }
  }

  /** The offers that survive: not the name of a static tool, and not offered before. */
  ghost predicate Survives(tools: Tools, provided: seq<DynamicTool>, i: nat)
    requires i < |provided|
  {
    provided[i].name !in tools && !OfferedBefore(provided, i, provided[i].name)
  }

  /** Their descriptors, in the order the provider gave them. */
  ghost function Appended(tools: Tools, provided: seq<DynamicTool>, n: nat): seq<Descriptor>
    requires n <= |provided|
  {
    if n == 0 then []
    else Appended(tools, provided, n - 1)
         + if Survives(tools, provided, n - 1)
           then [Describe(provided[n - 1].name, provided[n - 1].command, provided[n - 1].presentation)] else []
  }

  // ----------------------------------------------------------------- listing

  predicate NamesDistinct(list: seq<Descriptor>) {
    forall i, j :: 0 <= i < j < |list| ==> list[i].name != list[j].name
  }

  ghost predicate Lists(list: seq<Descriptor>, name: string) { exists i :: 0 <= i < |list| && list[i].name == name }

  /** The static block: every static tool once, described from its own command. */
  ghost predicate StaticBlock(tools: Tools, list: seq<Descriptor>) {
    && NamesDistinct(list)
    && (forall n :: n in tools <==> Lists(list, n))
    && (forall i :: 0 <= i < |list| ==> list[i].name in tools && list[i] == Describe(list[i].name, tools[list[i].name], None))
  }

  /** `list_tools`, in the order the map happens to have. */
  method ListTools(tools: Tools) returns (list: seq<Descriptor>)
    ensures StaticBlock(tools, list)
  {
    list := [];
    var left := tools.Keys;
    while left != {}
      invariant left <= tools.Keys && NamesDistinct(list)
      invariant forall n :: n in tools && n !in left <==> Lists(list, n)
      invariant forall i :: 0 <= i < |list| ==>
                  list[i].name in tools && list[i] == Describe(list[i].name, tools[list[i].name], None)
      decreases left
    {
      var n :| n in left;
      assert !Lists(list, n);
      ghost var before := list;
      list := list + [Describe(n, tools[n], None)];
      ListsGrows(before, list[|before|]);
      left := left - {n};
    }
  }

  lemma {:induction false} ListsGrows(list: seq<Descriptor>, d: Descriptor)
    ensures forall n :: Lists(list + [d], n) <==> Lists(list, n) || n == d.name
  {
    var more := list + [d];
    forall n ensures Lists(more, n) <==> Lists(list, n) || n == d.name {
      if i :| 0 <= i < |list| && list[i].name == n { assert more[i].name == n; }
      if n == d.name { assert more[|list|].name == n; }
      if i :| 0 <= i < |more| && more[i].name == n { assert i == |list| || list[i].name == n; }
    }
  }

  /** `list_tools_for_identity`: the static block, then the surviving offers. */
  method ListToolsForIdentity(tools: Tools, provider: Option<seq<DynamicTool>>) returns (list: seq<Descriptor>, block: nat)
    ensures block <= |list| && StaticBlock(tools, list[..block])
    ensures provider.None? ==> block == |list|
    ensures forall offers :: provider == Some(offers) ==> list[block..] == Appended(tools, offers, |offers|)
  {
    hide StaticBlock, Describe;
    list := ListTools(tools);
    block := |list|;
    assert list[..block] == list;
    if provider.None? { return; }
    var provided := provider.value;
    var emitted: set<string> := {};
    ghost var first := list;
    for i := 0 to |provided|
      invariant list == first + Appended(tools, provided, i)
      invariant forall n :: n in emitted <==> n !in tools && OfferedBefore(provided, i, n)
    {
      hide OfferedBefore;
      OfferedStep(provided, i);
      var tool := provided[i];
      if tool.name !in tools && tool.name !in emitted {
        emitted := emitted + {tool.name};
        list := list + [Describe(tool.name, tool.command, tool.presentation)];
      }
    }
    assert list[..block] == first;
  }

  /** What the n first offers left in the list, seen from one entry. */
  ghost predicate FromFirstOffer(tools: Tools, provided: seq<DynamicTool>, d: Descriptor) {
    exists i :: 0 <= i < |provided| && Survives(tools, provided, i) && d == Describe(provided[i].name, provided[i].command, provided[i].presentation)
  }

  lemma {:induction false} AppendedMeans(tools: Tools, provided: seq<DynamicTool>, n: nat)
    requires n <= |provided|
    ensures NamesDistinct(Appended(tools, provided, n))
    ensures forall name :: Lists(Appended(tools, provided, n), name) <==> name !in tools && OfferedBefore(provided, n, name)
    ensures forall d :: d in Appended(tools, provided, n) ==> FromFirstOffer(tools, provided, d)
  {
    if n > 0 {
      AppendedMeans(tools, provided, n - 1);
      hide OfferedBefore, Lists;
      OfferedStep(provided, n - 1);
      var before, tool := Appended(tools, provided, n - 1), provided[n - 1];
      if Survives(tools, provided, n - 1) {
        var d := Describe(tool.name, tool.command, tool.presentation);
        ListsGrows(before, d);
        AppendKeepsDistinct(before, d);
      } else {
        assert Appended(tools, provided, n) == before;
      }
    } else {
      assert forall name :: !OfferedBefore(provided, 0, name) && !Lists([], name);
    }
  }

  /** The surviving offers stand in the order in which the provider first offered their names. */
  lemma {:induction false} AppendedInOrder(tools: Tools, provided: seq<DynamicTool>, n: nat, k: nat, l: nat)
    requires n <= |provided| && k < l < |Appended(tools, provided, n)|
    ensures var list := Appended(tools, provided, n);
            && FirstOffer(provided, list[k].name).Some? && FirstOffer(provided, list[l].name).Some?
            && FirstOffer(provided, list[k].name).value < FirstOffer(provided, list[l].name).value < n
  {
    var before := Appended(tools, provided, n - 1);
    if l < |before| {
      AppendedInOrder(tools, provided, n - 1, k, l);
    } else {
      SurvivorIsFirst(tools, provided, n - 1);
      AppendedEarlier(tools, provided, n - 1, k);
    }
  }

  lemma {:induction false} SurvivorIsFirst(tools: Tools, provided: seq<DynamicTool>, i: nat)
    requires i < |provided| && Survives(tools, provided, i)
    ensures FirstOffer(provided, provided[i].name) == Some(i)
  {
  }

  lemma {:induction false} AppendedEarlier(tools: Tools, provided: seq<DynamicTool>, n: nat, k: nat)
    requires n <= |provided| && k < |Appended(tools, provided, n)|
    ensures var o := FirstOffer(provided, Appended(tools, provided, n)[k].name); o.Some? && o.value < n
  {
    var before := Appended(tools, provided, n - 1);
    if k < |before| { AppendedEarlier(tools, provided, n - 1, k); } else { SurvivorIsFirst(tools, provided, n - 1); }
  }

  lemma {:induction false} AppendKeepsDistinct(list: seq<Descriptor>, d: Descriptor)
    requires NamesDistinct(list) && !Lists(list, d.name)
    ensures NamesDistinct(list + [d])
  {
    var more := list + [d];
    forall i, j | 0 <= i < j < |more| ensures more[i].name != more[j].name {
      if j == |list| { assert list[i] == more[i] && !(list[i].name == d.name); }
    }
  }

  /** An entry that survived is the one dispatch finds. */
  lemma {:induction false} DispatchFindsSurvivor(tools: Tools, provided: seq<DynamicTool>, d: Descriptor)
    requires FromFirstOffer(tools, provided, d)
    ensures d.name !in tools && AgreesWithDispatch(tools, provided, d)
  {
    var i :| 0 <= i < |provided| && Survives(tools, provided, i)
             && d == Describe(provided[i].name, provided[i].command, provided[i].presentation);
    assert FirstOffer(provided, d.name) == Some(i);
  }

  /**
   * What an entry says about `_meta` and visibility is what the command a call would run says. It describes
   * that command too, unless the offer that provides it comes with a presentation of its own.
   */
  ghost predicate AgreesWithDispatch(tools: Tools, provided: seq<DynamicTool>, d: Descriptor) {
    var c := Dispatch(tools, provided, d.name);
    && c.Some? && d.meta == c.value.meta && d.visibility == c.value.visibility
    && match OfferedPresentation(tools, provided, d.name)
       case None => d.description == c.value.summary && d.schema == Derived(c.value.flags)
       case Some(p) => d.description == p.description && d.schema == p.schema
  }

  function OfferedPresentation(tools: Tools, provided: seq<DynamicTool>, name: string): Option<Presentation> {
    if name in tools then None
    else match FirstOffer(provided, name)
      case None => None
      case Some(i) => provided[i].presentation
  }

  /**
   * For every static map and provider result: no name is listed twice, a name is listed exactly when a call
   * of it would run something, and what the entry says about `_meta` and visibility is that command's.
   */
  lemma {:induction false} ListAgreesWithDispatch(tools: Tools, provided: seq<DynamicTool>, list: seq<Descriptor>, block: nat)
    requires block <= |list| && StaticBlock(tools, list[..block]) && list[block..] == Appended(tools, provided, |provided|)
    ensures NamesDistinct(list)
    ensures forall name :: Lists(list, name) <==> Dispatch(tools, provided, name).Some?
    ensures forall i :: 0 <= i < |list| ==> AgreesWithDispatch(tools, provided, list[i])
  {
    AppendedMeans(tools, provided, |provided|);
    var first, dynamic := list[..block], list[block..];
    assert list == first + dynamic;
    forall i | 0 <= i < |dynamic|
      ensures dynamic[i].name !in tools && AgreesWithDispatch(tools, provided, dynamic[i])
    {
      assert dynamic[i] in dynamic;
      DispatchFindsSurvivor(tools, provided, dynamic[i]);
    }
    assert forall i :: 0 <= i < |first| ==> AgreesWithDispatch(tools, provided, first[i]);
    assert forall name :: Dispatch(tools, provided, name).Some? <==> name in tools || OfferedBefore(provided, |provided|, name);
    ConcatLists(tools, first, dynamic);
  }

  lemma {:induction false} ConcatLists(tools: Tools, first: seq<Descriptor>, dynamic: seq<Descriptor>)
    requires NamesDistinct(first) && NamesDistinct(dynamic)
    requires forall i :: 0 <= i < |first| ==> first[i].name in tools
    requires forall i :: 0 <= i < |dynamic| ==> dynamic[i].name !in tools
    ensures NamesDistinct(first + dynamic)
    ensures forall name :: Lists(first + dynamic, name) <==> Lists(first, name) || Lists(dynamic, name)
  {
    var list := first + dynamic;
    forall i, j | 0 <= i < j < |list| ensures list[i].name != list[j].name {
      if |first| <= i { assert list[i] == dynamic[i - |first|] && list[j] == dynamic[j - |first|]; }
    }
    forall name ensures Lists(list, name) <==> Lists(first, name) || Lists(dynamic, name) {
      if i :| 0 <= i < |first| && first[i].name == name { assert list[i].name == name; }
      if i :| 0 <= i < |dynamic| && dynamic[i].name == name { assert list[|first| + i].name == name; }
      if i :| 0 <= i < |list| && list[i].name == name {
        assert if i < |first| then first[i].name == name else dynamic[i - |first|].name == name;
      }
    }
  }

  // ------------------------------------------------------------- static tools

  datatype Policy = AllCommands | ExposeMcpOnly

  /** What `from_command_registry_with_policy` is given. */
  datatype Source = Source(commands: map<string, Command>, completion: Option<string>, policy: Policy, app: string)

  predicate Exported(e: Source, k: string) {
    && k in e.commands
    && e.completion != Some(k) && !("auth/" <= k) && k != "auth"
    && (e.policy.ExposeMcpOnly? ==> e.commands[k].exposeMcp)
  }

  /** `replace('/', "_")`. */
  function Underscored(s: string): string { seq(|s|, i requires 0 <= i < |s| => if s[i] == '/' then '_' else s[i]) }

  function ToolName(e: Source, k: string): string { e.app + "_" + Underscored(k) }

  function ToolsOf(e: Source, order: seq<string>): Tools {
    if order == [] then map[]
    else
      var k, before := order[|order| - 1], ToolsOf(e, order[..|order| - 1]);
      if Exported(e, k) then before[ToolName(e, k) := e.commands[k]] else before
  }

  /** The constructor's loop, for one order of the registry's hash map. */
  method FromCommandRegistry(e: Source, order: seq<string>) returns (tools: Tools)
    requires Enumerates(order, e.commands.Keys)
    ensures tools == ToolsOf(e, order)
    ensures forall n :: n in tools <==> exists k :: Eligible(e, k) && n == e.app + "_" + JoinedBy('_', Split(k))
    ensures forall n :: n in tools ==> RunsEligible(e, n, tools[n])
  {
    tools := map[];
    for i := 0 to |order|
      invariant tools == ToolsOf(e, order[..i])
    {
      assert order[..i + 1][..i] == order[..i];
      var k := order[i];
      if e.completion == Some(k) || "auth/" <= k || k == "auth" { continue; }
      if e.policy == ExposeMcpOnly && !e.commands[k].exposeMcp { continue; }
      tools := tools[ToolName(e, k) := e.commands[k]];
    }
    assert order[..|order|] == order;
    ToolsAreEligible(e, order);
  }

  /** Not the framework's completion, not at or below "auth", and marked for export where the policy asks for that. */
  predicate Eligible(e: Source, k: string) {
    && k in e.commands && e.completion != Some(k) && Split(k)[0] != "auth"
    && (e.policy == ExposeMcpOnly ==> e.commands[k].exposeMcp)
  }

  function JoinedBy(c: char, p: Path): string {
    if p == [] then "" else if |p| == 1 then p[0] else p[0] + [c] + JoinedBy(c, p[1..])
  }

  /** A tool runs an eligible command, under the name made of that command's segments. */
  ghost predicate RunsEligible(e: Source, n: string, c: Command) {
    exists k :: Eligible(e, k) && n == e.app + "_" + JoinedBy('_', Split(k)) && c == e.commands[k]
  }

  /** A path is at or below "auth" exactly when that is its first segment. */
  lemma {:induction false} AuthIsFirst(k: string)
    ensures Split(k)[0] == "auth" <==> k == "auth" || "auth/" <= k
  {
    var p := Split(k);
    assert Split("auth") == ["auth"] && Join(["auth"]) == "auth" && "auth" + "/" == "auth/";
    AboveIsProperPrefix(["auth"], p);
    if p[0] == "auth" && |p| > 1 { assert p[..1] == ["auth"]; }
    if p[0] == "auth" && |p| == 1 { assert p == ["auth"]; }
    if Above("auth", k) { assert p[..1][0] == p[0]; }
  }

  lemma {:induction false} UnderscoredJoin(p: Path)
    requires PathOk(p)
    ensures Underscored(Join(p)) == JoinedBy('_', p)
  {
    if |p| == 1 {
      NoSlashKept(p[0]);
    } else if |p| > 1 {
      UnderscoredJoin(p[1..]);
      NoSlashKept(p[0]);
      UnderscoredConcat(p[0] + "/", Join(p[1..]));
      UnderscoredConcat(p[0], "/");
    }
  }

  lemma {:induction false} NoSlashKept(s: string)
    requires '/' !in s
    ensures Underscored(s) == s
  {
  }

  lemma {:induction false} UnderscoredConcat(a: string, b: string)
    ensures Underscored(a + b) == Underscored(a) + Underscored(b)
  {
  }

  lemma {:induction false} ExportedIffEligible(e: Source, k: string)
    ensures Exported(e, k) <==> Eligible(e, k)
    ensures ToolName(e, k) == e.app + "_" + JoinedBy('_', Split(k))
  {
    AuthIsFirst(k);
    UnderscoredJoin(Split(k));
  }

  lemma {:induction false} ToolsAreEligible(e: Source, order: seq<string>)
    requires Enumerates(order, e.commands.Keys)
    ensures forall n :: n in ToolsOf(e, order) <==> exists k :: Eligible(e, k) && n == e.app + "_" + JoinedBy('_', Split(k))
    ensures forall n :: n in ToolsOf(e, order) ==> RunsEligible(e, n, ToolsOf(e, order)[n])
  {
    forall k ensures (Exported(e, k) <==> Eligible(e, k)) && ToolName(e, k) == e.app + "_" + JoinedBy('_', Split(k)) {
      ExportedIffEligible(e, k);
    }
    hide Exported, Eligible, ToolName, Split, JoinedBy;
    forall n ensures n in ToolsOf(e, order) <==> exists k :: Eligible(e, k) && n == e.app + "_" + JoinedBy('_', Split(k)) {
      ToolsOfNames(e, order, n);
      if k :| Eligible(e, k) && n == e.app + "_" + JoinedBy('_', Split(k)) {
        EligibleIsCommand(e, k);
        assert k in order && Exported(e, k) && ToolName(e, k) == n;
      }
    }
    forall n | n in ToolsOf(e, order) ensures RunsEligible(e, n, ToolsOf(e, order)[n]) { ToolsOfRun(e, order, n); }
  }

  lemma {:induction false} EligibleIsCommand(e: Source, k: string)
    requires Eligible(e, k)
    ensures k in e.commands
  {
  }

  lemma {:induction false} ToolsOfRun(e: Source, order: seq<string>, n: string)
    requires n in ToolsOf(e, order)
    ensures RunsEligible(e, n, ToolsOf(e, order)[n])
  {
    var k, before := order[|order| - 1], order[..|order| - 1];
    ExportedIffEligible(e, k);
    if Exported(e, k) && ToolName(e, k) == n {
      assert ToolsOf(e, order)[n] == e.commands[k];
    } else {
      ToolsOfRun(e, before, n);
    }
  }

  lemma {:induction false} ToolsOfNames(e: Source, order: seq<string>, n: string)
    ensures n in ToolsOf(e, order) <==> exists k :: k in order && Exported(e, k) && ToolName(e, k) == n
  {
    if order != [] {
      var k, before := order[|order| - 1], order[..|order| - 1];
      ToolsOfNames(e, before, n);
      assert order == before + [k];
      if Exported(e, k) && ToolName(e, k) == n { assert k in order; }
      if x :| x in before && Exported(e, x) && ToolName(e, x) == n { assert x in order; }
    }
  }

  /** No two exported commands are told apart by their keys and run together under one tool name. */
  ghost predicate ToolNamesApart(e: Source) {
    forall k, l :: Exported(e, k) && Exported(e, l) && ToolName(e, k) == ToolName(e, l) ==> e.commands[k] == e.commands[l]
  }

  /** Every exported command is what a call of its tool name runs. */
  ghost predicate EachUnderItsName(e: Source, tools: Tools) {
    forall k :: Exported(e, k) ==> ToolName(e, k) in tools && tools[ToolName(e, k)] == e.commands[k]
  }

  lemma {:induction false} ToolsOfGiven(e: Source, order: seq<string>, k: string)
    requires ToolNamesApart(e) && k in order && Exported(e, k)
    ensures ToolName(e, k) in ToolsOf(e, order) && ToolsOf(e, order)[ToolName(e, k)] == e.commands[k]
  {
    var l, before := order[|order| - 1], order[..|order| - 1];
    assert order == before + [l];
    if k in before { ToolsOfGiven(e, before, k); }
  }

  /** In every order of the hash map: each exported command is reachable under its name iff names are apart. */
  lemma {:induction false} EachUnderItsNameIff(e: Source, order: seq<string>)
    requires Enumerates(order, e.commands.Keys)
    ensures EachUnderItsName(e, ToolsOf(e, order)) <==> ToolNamesApart(e)
  {
    if ToolNamesApart(e) {
      forall k | Exported(e, k) ensures ToolName(e, k) in ToolsOf(e, order) && ToolsOf(e, order)[ToolName(e, k)] == e.commands[k] {
        ToolsOfGiven(e, order, k);
      }
    }
  }

  ghost predicate SameInEveryOrder(e: Source) {
    forall o, p :: Enumerates(o, e.commands.Keys) && Enumerates(p, e.commands.Keys) ==> ToolsOf(e, o) == ToolsOf(e, p)
  }

  /** The tool map depends on the registry alone, and not on hash order, exactly when tool names are apart. */
  lemma {:induction false} SameInEveryOrderIff(e: Source)
    ensures SameInEveryOrder(e) <==> ToolNamesApart(e)
  {
    hide Enumerates, ToolsOf, ToolName;
    if ToolNamesApart(e) {
      forall o, p | Enumerates(o, e.commands.Keys) && Enumerates(p, e.commands.Keys) ensures ToolsOf(e, o) == ToolsOf(e, p) {
        SameTools(e, o, p);
      }
    } else {
      var k, l :| Exported(e, k) && Exported(e, l) && ToolName(e, k) == ToolName(e, l) && e.commands[k] != e.commands[l];
      CollisionShows(e, k, l);
    }
  }

  lemma {:induction false} CollisionShows(e: Source, k: string, l: string)
    requires Exported(e, k) && Exported(e, l) && ToolName(e, k) == ToolName(e, l) && e.commands[k] != e.commands[l]
    ensures !SameInEveryOrder(e)
  {
    hide Enumerates, ToolsOf, ToolName;
    var rest := SomeOrder(e.commands.Keys - {k, l});
    LastTwo(rest, k, l, e.commands.Keys);
    LastTwo(rest, l, k, e.commands.Keys);
    LastWins(e, rest + [k], l);
    LastWins(e, rest + [l], k);
  }

  lemma {:induction false} LastWins(e: Source, before: seq<string>, k: string)
    requires Exported(e, k)
    ensures ToolName(e, k) in ToolsOf(e, before + [k]) && ToolsOf(e, before + [k])[ToolName(e, k)] == e.commands[k]
  {
    assert (before + [k])[..|before|] == before;
  }

  lemma {:induction false} LastTwo(rest: seq<string>, k: string, l: string, keys: set<string>)
    requires k in keys && l in keys && k != l && Enumerates(rest, keys - {k, l})
    ensures Enumerates((rest + [k]) + [l], keys)
  {
    assert forall i :: 0 <= i < |rest| ==> rest[i] in rest;
  }

  lemma {:induction false} SameTools(e: Source, o: seq<string>, p: seq<string>)
    requires ToolNamesApart(e) && Enumerates(o, e.commands.Keys) && Enumerates(p, e.commands.Keys)
    ensures ToolsOf(e, o) == ToolsOf(e, p)
  {
    forall n ensures n in ToolsOf(e, o) <==> n in ToolsOf(e, p) {
      ToolsOfNames(e, o, n);
      ToolsOfNames(e, p, n);
    }
    forall n | n in ToolsOf(e, o) ensures ToolsOf(e, o)[n] == ToolsOf(e, p)[n] {
      ToolsOfNames(e, o, n);
      var k :| k in o && Exported(e, k) && ToolName(e, k) == n;
      ToolsOfGiven(e, o, k);
      ToolsOfGiven(e, p, k);
    }
  }

  /** Keys without underscores are safe whatever they run. */
  lemma {:induction false} NoUnderscoresApart(e: Source)
    requires forall k :: Exported(e, k) ==> '_' !in k
    ensures ToolNamesApart(e)
  {
    forall k, l | Exported(e, k) && Exported(e, l) && ToolName(e, k) == ToolName(e, l) ensures k == l {
      var n, m := |e.app| + 1, ToolName(e, k);
      assert m[n..] == Underscored(k) && m[n..] == Underscored(l);
      forall i | 0 <= i < |k| ensures k[i] == l[i] { assert Underscored(k)[i] == Underscored(l)[i]; }
    }
  }

  /** A registry may hold "a/b" beside "a_b": no conflict there, one tool name here. */
  lemma {:induction false} UnderscoreCollides(c: Command, d: Command, app: string)
    requires AllAliases(c) == [] && AllAliases(d) == [] && c != d
    ensures !Conflict(Cmd("a/b", c), Cmd("a_b", d))
    ensures !SameInEveryOrder(Source(map["a/b" := c, "a_b" := d], None, AllCommands, app))
  {
    var e := Source(map["a/b" := c, "a_b" := d], None, AllCommands, app);
    assert Underscored("a/b") == "a_b" == Underscored("a_b");
    assert Exported(e, "a/b") && Exported(e, "a_b");
    SameInEveryOrderIff(e);
  }
}
