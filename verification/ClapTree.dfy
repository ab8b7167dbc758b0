/** src/app/clap_adapter.rs: the registry's string keys rebuilt as a tree of subcommands. */
module ClapTree {
  import opened Wrappers
  import opened PathKeys
  import opened Namespace
  import Registration

  /** `ClapTreeNode`: owned by its parent, so an in-place insertion is an update of the value. */
  datatype Node = Node(command: Option<Command>, children: map<string, Node>)

  const LEAF := Node(None, map[])

  /** A subcommand of the parser. Which order help lists the children in is not part of this. */
  datatype Clap = Leaf(command: Command) | Group(subs: map<string, Clap>)

  function Child(n: Node, segment: string): Node {
    if segment in n.children then n.children[segment] else LEAF
  }

  /** `insert_command` and, with no command, `insert_group`. */
  function Insert(n: Node, segments: Path, c: Option<Command>): Node
    decreases |segments|
  {
    if segments == [] then (if c.Some? then n.(command := c) else n)
    else n.(children := n.children[segments[0] := Insert(Child(n, segments[0]), segments[1..], c)])
  }

  function NonEmpty(p: Path): Path {
    if p == [] then [] else (if p[0] == "" then [] else [p[0]]) + NonEmpty(p[1..])
  }

  /** `path_str.split('/').filter(|s| !s.is_empty())`. */
  function Segments(key: string): Path { NonEmpty(Split(key)) }

  function At(n: Node, p: Path): Option<Node>
    decreases |p|
  {
    if p == [] then Some(n) else if p[0] in n.children then At(n.children[p[0]], p[1..]) else None
  }

  function CommandAt(n: Node, p: Path): Option<Command> {
    match At(n, p)
    case Some(m) => m.command
    case None => None
  }

  /** `build_clap_node`: a node with children becomes a group, whatever command it carries. */
  function Build(n: Node): Option<Clap>
    decreases n, 1
  {
    if n.children == map[] then (if n.command.Some? then Some(Leaf(n.command.value)) else None)
    else Some(Group(BuildChildren(n)))
  }

  function BuildChildren(n: Node): map<string, Clap>
    decreases n, 0
  {
    map s | s in n.children && Build(n.children[s]).Some? :: Build(n.children[s]).value
  }

  /** `walk_subcommands` along the canonical names in `p`. */
  function Walk(c: Clap, p: Path): Option<Clap>
    decreases |p|
  {
    if p == [] then Some(c)
    else if c.Group? && p[0] in c.subs then Walk(c.subs[p[0]], p[1..]) else None
  }

  /** The command the parser runs for `p`, the root being a group even when it is empty. */
  function LeafAt(tree: Node, p: Path): Option<Command> {
    match Walk(Group(BuildChildren(tree)), p)
    case Some(Leaf(c)) => Some(c)
    case _ => None
  }

  function Resolve(r: Registry, p: Path): Option<Command> {
    if Join(p) in r.commands then Some(r.commands[Join(p)]) else None
  }

  // ----------------------------------------------------------- insertion

  lemma {:induction false} InsertMakesNodes(n: Node, q: Path, c: Option<Command>, p: Path)
    ensures At(Insert(n, q, c), p).Some? <==> At(n, p).Some? || p <= q
    ensures CommandAt(Insert(n, q, c), p) == if p == q && c.Some? then c else CommandAt(n, p)
    decreases |q|
  {
    if q == [] || p == [] {
    } else if p[0] == q[0] {
      InsertMakesNodes(Child(n, q[0]), q[1..], c, p[1..]);
      assert p <= q <==> p[1..] <= q[1..];
      assert p == q <==> p[1..] == q[1..];
    } else {
      assert !(p <= q);
    }
  }

  /** The tree has exactly the prefixes of the inserted paths, and every inserted command is somewhere. */
  ghost predicate TreeOf(t: Node, commands: map<string, Command>, groups: set<string>) {
    && (forall p :: At(t, p).Some? <==> p == [] || OnTheWay(p, commands.Keys + groups))
    && (forall p :: CommandAt(t, p).Some? ==> Carries(commands, p, CommandAt(t, p).value))
    && (forall k :: k in commands ==> CommandAt(t, Segments(k)).Some?)
  }

  ghost predicate OnTheWay(p: Path, keys: set<string>) { exists k :: k in keys && p <= Segments(k) }

  ghost predicate Carries(commands: map<string, Command>, p: Path, c: Command) {
    exists k :: k in commands && Segments(k) == p && commands[k] == c
  }

  lemma {:induction false} InsertExtendsTree(t: Node, commands: map<string, Command>, groups: set<string>, k: string, c: Command)
    requires TreeOf(t, commands, groups) && k !in commands
    ensures TreeOf(Insert(t, Segments(k), Some(c)), commands[k := c], groups)
  {
    hide Insert, At, CommandAt, Segments, OnTheWay, Carries;
    var u, more := Insert(t, Segments(k), Some(c)), commands[k := c];
    assert more.Keys + groups == (commands.Keys + groups) + {k};
    forall p ensures At(u, p).Some? <==> p == [] || OnTheWay(p, more.Keys + groups) {
      InsertMakesNodes(t, Segments(k), Some(c), p);
      OneMoreOnTheWay(p, commands.Keys + groups, k);
    }
    forall p | CommandAt(u, p).Some? ensures Carries(more, p, CommandAt(u, p).value) {
      InsertMakesNodes(t, Segments(k), Some(c), p);
      OneMoreCarried(commands, k, c, p);
    }
    forall e | e in more ensures CommandAt(u, Segments(e)).Some? { InsertMakesNodes(t, Segments(k), Some(c), Segments(e)); }
  }

  lemma {:induction false} OneMoreOnTheWay(p: Path, keys: set<string>, k: string)
    ensures OnTheWay(p, keys + {k}) <==> OnTheWay(p, keys) || p <= Segments(k)
  {
    hide Segments;
    if p <= Segments(k) { assert k in keys + {k}; }
    if e :| e in keys + {k} && p <= Segments(e) { assert e == k || e in keys; }
    if e :| e in keys && p <= Segments(e) { assert e in keys + {k}; }
  }

  lemma {:induction false} OneMoreCarried(commands: map<string, Command>, k: string, c: Command, p: Path)
    requires k !in commands
    ensures p == Segments(k) ==> Carries(commands[k := c], p, c)
    ensures forall d :: Carries(commands, p, d) ==> Carries(commands[k := c], p, d)
  {
    hide Segments;
    var more := commands[k := c];
    if p == Segments(k) { assert k in more && more[k] == c; }
    forall d | Carries(commands, p, d) ensures Carries(more, p, d) {
      var e :| e in commands && Segments(e) == p && commands[e] == d;
      assert e in more && more[e] == d;
    }
  }

  lemma {:induction false} InsertGroupExtendsTree(t: Node, commands: map<string, Command>, groups: set<string>, k: string)
    requires TreeOf(t, commands, groups)
    ensures TreeOf(Insert(t, Segments(k), None), commands, groups + {k})
  {
    hide Insert, At, CommandAt, Segments, OnTheWay, Carries;
    var u := Insert(t, Segments(k), None);
    assert commands.Keys + (groups + {k}) == (commands.Keys + groups) + {k};
    forall p ensures At(u, p).Some? <==> p == [] || OnTheWay(p, commands.Keys + (groups + {k})) {
      InsertMakesNodes(t, Segments(k), None, p);
      OneMoreOnTheWay(p, commands.Keys + groups, k);
    }
    forall p ensures CommandAt(u, p) == CommandAt(t, p) { InsertMakesNodes(t, Segments(k), None, p); }
  }

  lemma {:induction false} EmptyTree()
    ensures TreeOf(LEAF, map[], {})
  {
  }

  /** The tree part of `build_clap_root`: the maps are walked in whatever order they happen to have. */
  method BuildTree(r: Registry) returns (tree: Node)
    ensures TreeOf(tree, r.commands, r.groups.Keys)
  {
    EmptyTree();
    hide TreeOf, Segments, Insert;
    tree := LEAF;
    var left := r.commands.Keys;
    assert r.commands - left == map[];
    while left != {}
      invariant left <= r.commands.Keys && TreeOf(tree, r.commands - left, {})
      decreases left
    {
      var k :| k in left;
      InsertExtendsTree(tree, r.commands - left, {}, k, r.commands[k]);
      assert (r.commands - left)[k := r.commands[k]] == r.commands - (left - {k});
      tree := Insert(tree, Segments(k), Some(r.commands[k]));
      left := left - {k};
    }
    assert r.commands - {} == r.commands;
    left := r.groups.Keys;
    assert r.groups.Keys - left == {};
    while left != {}
      invariant left <= r.groups.Keys && TreeOf(tree, r.commands, r.groups.Keys - left)
      decreases left
    {
      var k :| k in left;
      InsertGroupExtendsTree(tree, r.commands, r.groups.Keys - left, k);
      assert r.groups.Keys - left + {k} == r.groups.Keys - (left - {k});
      tree := Insert(tree, Segments(k), None);
      left := left - {k};
    }
    assert r.groups.Keys - {} == r.groups.Keys;
  }

  // ---------------------------------------------------------- the built parser

  /** The parser has a leaf at `p` exactly where the tree has a childless node with a command. */
  lemma {:induction false} BuiltLeaves(n: Node, p: Path, c: Command)
    ensures Build(n).Some? && Walk(Build(n).value, p) == Some(Leaf(c))
            <==> At(n, p).Some? && At(n, p).value == Node(Some(c), map[])
    decreases |p|
  {
    if p != [] && p[0] in n.children {
      BuiltLeaves(n.children[p[0]], p[1..], c);
    }
  }

  lemma {:induction false} RootLeaves(t: Node, p: Path, c: Command)
    requires p != []
    ensures LeafAt(t, p) == Some(c) <==> At(t, p).Some? && At(t, p).value == Node(Some(c), map[])
  {
    if p[0] in t.children {
      BuiltLeaves(t.children[p[0]], p[1..], c);
    }
  }

  /** The parser has a subcommand at `p` exactly where the tree has a node that is not an empty dead end. */
  lemma {:induction false} BuiltNodes(n: Node, p: Path)
    ensures Build(n).Some? && Walk(Build(n).value, p).Some? <==> At(n, p).Some? && Build(At(n, p).value).Some?
    decreases |p|
  {
    if p != [] && p[0] in n.children {
      BuiltNodes(n.children[p[0]], p[1..]);
    }
  }

  predicate HasSubcommand(t: Node, p: Path) { Walk(Group(BuildChildren(t)), p).Some? }

  lemma {:induction false} RootNodes(t: Node, p: Path)
    requires p != []
    ensures HasSubcommand(t, p) <==>
            At(t, p).Some? && (At(t, p).value.children != map[] || At(t, p).value.command.Some?)
  {
    if p[0] in t.children {
      BuiltNodes(t.children[p[0]], p[1..]);
    }
  }

  /** A node has a child exactly when some other inserted path goes through it. */
  lemma {:induction false} ChildrenAreDeeperPaths(n: Node, p: Path, s: string)
    ensures At(n, p).Some? && s in At(n, p).value.children <==> At(n, p + [s]).Some?
    decreases |p|
  {
    if p == [] {
      assert (p + [s])[1..] == [];
    } else if p[0] in n.children {
      assert (p + [s])[1..] == p[1..] + [s];
      ChildrenAreDeeperPaths(n.children[p[0]], p[1..], s);
    }
  }

  lemma {:induction false} ChildlessMeansLast(t: Node, commands: map<string, Command>, groups: set<string>, p: Path)
    requires TreeOf(t, commands, groups) && At(t, p).Some?
    ensures At(t, p).value.children == map[] <==> !exists k :: k in commands.Keys + groups && ProperPrefix(p, Segments(k))
  {
    hide Segments, At;
    if k :| k in commands.Keys + groups && ProperPrefix(p, Segments(k)) {
      var s := Segments(k)[|p|];
      assert p + [s] <= Segments(k);
      assert OnTheWay(p + [s], commands.Keys + groups);
      ChildrenAreDeeperPaths(t, p, s);
    }
    if At(t, p).value.children != map[] {
      var s :| s in At(t, p).value.children;
      ChildrenAreDeeperPaths(t, p, s);
      var k :| k in commands.Keys + groups && p + [s] <= Segments(k);
      assert ProperPrefix(p, Segments(k));
    }
  }

  // ------------------------------------------------------- against the registry

  predicate NoEmptySegment(p: Path) { forall i :: 0 <= i < |p| ==> p[i] != "" }

  lemma {:induction false} NonEmptyKeepsGoodPaths(p: Path)
    ensures NoEmptySegment(NonEmpty(p)) && (PathOk(p) ==> PathOk(NonEmpty(p)))
    ensures NoEmptySegment(p) ==> NonEmpty(p) == p
  {
    if p != [] { NonEmptyKeepsGoodPaths(p[1..]); }
  }

  /** Exactly what the parser needs of a valid registry: no empty segment in a command's path, and no group under a command once empty segments are dropped. */
  ghost predicate Spelled(r: Registry) {
    && (forall k :: k in r.commands ==> NoEmptySegment(Split(k)))
    && (forall k, g :: k in r.commands && g in r.groups ==> !ProperPrefix(Split(k), Segments(g)))
  }

  /** Every name the parser runs is the path of the command it runs, and every registered command can be run. */
  ghost predicate ParserMatches(r: Registry, tree: Node) {
    forall p :: p != [] && PathOk(p) ==> LeafAt(tree, p) == Resolve(r, p)
  }

  lemma {:induction false} SpelledKeysAreSegments(r: Registry, k: string)
    requires Spelled(r) && k in r.commands
    ensures Segments(k) == Split(k)
  {
    NonEmptyKeepsGoodPaths(Split(k));
  }

  /** Nothing is registered below a command, once keys are read as the parser reads them. */
  lemma {:induction false} NothingBelowCommand(r: Registry, k: string, d: string)
    requires Registration.Valid(r) && Spelled(r) && k in r.commands && (d in r.commands || d in r.groups)
    ensures !ProperPrefix(Split(k), Segments(d))
  {
    if d in r.commands {
      SpelledKeysAreSegments(r, d);
      AboveIsProperPrefix(Split(k), Split(d));
      var x, y := Cmd(k, r.commands[k]), Cmd(d, r.commands[d]);
      assert Registered(r, x) && Registered(r, y) && (x != y ==> !Conflict(x, y));
    }
  }

  lemma {:induction false} NodeCarriesCommand(r: Registry, tree: Node, k: string)
    requires TreeOf(tree, r.commands, r.groups.Keys) && Spelled(r) && k in r.commands
    ensures CommandAt(tree, Split(k)) == Some(r.commands[k])
  {
    SpelledKeysAreSegments(r, k);
    var c := CommandAt(tree, Segments(k)).value;
    assert Carries(r.commands, Segments(k), c);
    var e :| e in r.commands && Segments(e) == Segments(k) && r.commands[e] == c;
    SpelledKeysAreSegments(r, e);
    assert e == Join(Split(e)) == k;
  }

  /** A registered command's node carries that command and has no children, so "children win" loses nothing. */
  lemma {:induction false} RegisteredCommandIsLeaf(r: Registry, tree: Node, p: Path)
    requires Registration.Valid(r) && TreeOf(tree, r.commands, r.groups.Keys) && Spelled(r)
    requires PathOk(p) && p != [] && Join(p) in r.commands
    ensures LeafAt(tree, p) == Some(r.commands[Join(p)])
  {
    var k := Join(p);
    SplitJoin(p);
    NodeCarriesCommand(r, tree, k);
    forall d | d in r.commands.Keys + r.groups.Keys ensures !ProperPrefix(p, Segments(d)) { NothingBelowCommand(r, k, d); }
    ChildlessMeansLast(tree, r.commands, r.groups.Keys, p);
    RootLeaves(tree, p, r.commands[k]);
  }

  lemma {:induction false} LeafIsRegisteredCommand(r: Registry, tree: Node, p: Path)
    requires TreeOf(tree, r.commands, r.groups.Keys) && Spelled(r) && p != [] && LeafAt(tree, p).Some?
    ensures Resolve(r, p) == LeafAt(tree, p)
  {
    var c := LeafAt(tree, p).value;
    RootLeaves(tree, p, c);
    assert CommandAt(tree, p) == Some(c);
    var e :| e in r.commands && Segments(e) == p && r.commands[e] == c;
    SpelledKeysAreSegments(r, e);
  }

  /** The parser agrees with a valid registry on every path if and only if its keys are properly spelled. */
  lemma {:induction false} ParserMatchesIffSpelled(r: Registry, tree: Node)
    requires Registration.Valid(r) && TreeOf(tree, r.commands, r.groups.Keys)
    ensures ParserMatches(r, tree) <==> Spelled(r)
  {
    if Spelled(r) {
      forall p | p != [] && PathOk(p) ensures LeafAt(tree, p) == Resolve(r, p) {
        if Join(p) in r.commands { RegisteredCommandIsLeaf(r, tree, p); }
        else if LeafAt(tree, p).Some? { LeafIsRegisteredCommand(r, tree, p); }
      }
    }
    if ParserMatches(r, tree) {
      forall k | k in r.commands
        ensures NoEmptySegment(Split(k)) && forall g :: g in r.groups ==> !ProperPrefix(Split(k), Segments(g))
      {
        MatchedKeyIsSpelled(r, tree, k);
      }
    }
  }

  lemma {:induction false} MatchedKeyIsSpelled(r: Registry, tree: Node, k: string)
    requires TreeOf(tree, r.commands, r.groups.Keys) && ParserMatches(r, tree) && k in r.commands
    ensures NoEmptySegment(Split(k)) && forall g :: g in r.groups ==> !ProperPrefix(Split(k), Segments(g))
  {
    var p := Split(k);
    assert LeafAt(tree, p) == Resolve(r, p) == Some(r.commands[k]);
    RootLeaves(tree, p, r.commands[k]);
    assert OnTheWay(p, r.commands.Keys + r.groups.Keys);
    var e :| e in r.commands.Keys + r.groups.Keys && p <= Segments(e);
    NonEmptyKeepsGoodPaths(Split(e));
    assert forall i :: 0 <= i < |p| ==> p[i] == Segments(e)[i];
    ChildlessMeansLast(tree, r.commands, r.groups.Keys, p);
    forall g | g in r.groups ensures !ProperPrefix(Split(k), Segments(g)) {
      assert g in r.commands.Keys + r.groups.Keys;
    }
  }

  function DoubleSlash(): Registry { Registry(map["a//b" := Registration.Plain()], map[]) }

  lemma {:induction false} DoubleSlashSplits()
    ensures Join(["a", "", "b"]) == "a//b" && Split("a//b") == ["a", "", "b"]
  {
    var p := ["a", "", "b"];
    assert Join(["", "b"]) == "/b" by { assert ["", "b"][1..] == ["b"] && "" + "/" + "b" == "/b"; }
    assert Join(p) == "a//b" by { assert p[1..] == ["", "b"] && "a" + "/" + "/b" == "a//b"; }
    hide Join;
    SplitJoin(p);
  }

  /** An empty segment: accepted, valid, and lost by the parser. */
  lemma {:induction false} EmptySegmentIsLost(tree: Node)
    requires TreeOf(tree, DoubleSlash().commands, DoubleSlash().groups.Keys)
    ensures CommandAdmitted(EMPTY, ["a", "", "b"], Registration.Plain())
    ensures Add(EMPTY, Cmd(Join(["a", "", "b"]), Registration.Plain())) == DoubleSlash()
    ensures Registration.Valid(DoubleSlash()) && !Spelled(DoubleSlash()) && !ParserMatches(DoubleSlash(), tree)
  {
    DoubleSlashSplits();
    hide Split, Join, TreeOf, ParserMatches, LeafAt;
    Registration.OneIsValid("a//b", Registration.Plain());
    assert ["a", "", "b"][1] == "";
    assert "a//b" in DoubleSlash().commands;
    assert !Spelled(DoubleSlash());
    ParserMatchesIffSpelled(DoubleSlash(), tree);
    assert AllAliases(Registration.Plain()) == [];
  }

  // ------------------------------------------------------------- sibling names

  /** The alias of a leaf at `p + [t]`, as a key. */
  lemma {:induction false} LeafAlias(p: Path, t: string, a: string)
    requires PathOk(p + [t]) && '/' !in a
    ensures AliasKey(Join(p + [t]), a) == Join(p + [a])
  {
    SplitJoin(p + [t]);
    assert (p + [t])[..|p|] == p;
  }

  /** In the registry: a sibling alias of `p + [t]` is at or above no key but its own. */
  lemma {:induction false} AliasBlocksPath(r: Registry, p: Path, t: string, s: string, e: string)
    requires Registration.Valid(r) && PathOk(p + [t]) && Join(p + [t]) in r.commands
    requires s in AllAliases(r.commands[Join(p + [t])]) && '/' !in s
    requires (e in r.commands || e in r.groups) && p + [s] <= Split(e)
    ensures s == t
  {
    var k := Join(p + [t]);
    LeafAlias(p, t, s);
    var x := Cmd(k, r.commands[k]);
    var y := if e in r.commands then Cmd(e, r.commands[e]) else Grp(e, r.groups[e]);
    assert AliasKey(k, s) in Aliases(x);
    PrefixIsAtOrAbove(p + [s], e);
    assert x == y by { ShadowMeansSame(r, x, y); }
    SplitJoin(p + [t]);
    assert (p + [s])[|p|] == (p + [t])[|p|];
  }

  lemma {:induction false} PrefixIsAtOrAbove(q: Path, e: string)
    requires q != [] && q <= Split(e)
    ensures AtOrAbove(Join(q), e)
  {
    var s := Split(e);
    assert Join(s) == e && PathOk(s);
    hide Split, Join;
    assert q == s[..|q|];
    assert |q| == |s| ==> q == s;
    assert forall i :: 0 <= i < |q| ==> q[i] == s[i];
    if |q| < |s| { AboveIsProperPrefix(q, s); }
  }

  lemma {:induction false} ShadowMeansSame(r: Registry, x: Item, y: Item)
    requires Registration.Valid(r) && Registered(r, x) && Registered(r, y) && Shadows(x, y)
    ensures x == y
  {
    assert Conflict(x, y);
  }

  /** The place of a relative alias, beside its command. */
  function Beside(k: string, alias: string): Path { Split(k)[..|Split(k)| - 1] + [alias] }

  /** Command `k` has a relative alias other than its own name. */
  predicate OtherName(r: Registry, k: string, alias: string) {
    && k in r.commands && (alias in r.commands[k].aliases || alias in r.commands[k].hiddenAliases)
    && '/' !in alias && alias != Split(k)[|Split(k)| - 1]
  }

  /** That alias is where the parser, which drops empty segments, puts a group, or something above one. */
  predicate MeetsGroup(r: Registry, k: string, alias: string, g: string) {
    OtherName(r, k, alias) && g in r.groups && Beside(k, alias) <= Segments(g)
  }

  /** ... and there is something below, so that it is a subcommand. */
  predicate MeetsSubcommand(r: Registry, k: string, alias: string, g: string) {
    OtherName(r, k, alias) && g in r.groups && ProperPrefix(Beside(k, alias), Segments(g))
  }

  /** The leaf at `p + [t]` has the alias `s`, which is not its name. */
  predicate LeafHasAlias(tree: Node, p: Path, t: string, s: string) {
    s != t && LeafAt(tree, p + [t]).Some? && s in AllAliases(LeafAt(tree, p + [t]).value)
  }

  /** No alias of a leaf is the name of a node beside it. */
  ghost predicate AliasesAreNoNodes(tree: Node) { forall p, t, s :: LeafHasAlias(tree, p, t, s) ==> At(tree, p + [s]).None? }

  /** No alias of a subcommand is the name of another subcommand beside it. */
  ghost predicate AliasesAreNoSubcommands(tree: Node) {
    forall p, t, s :: LeafHasAlias(tree, p, t, s) ==> !HasSubcommand(tree, p + [s])
  }

  /** A leaf with an alias, in the registry. */
  lemma {:induction false} AliasedLeaf(r: Registry, tree: Node, p: Path, t: string, s: string)
    requires TreeOf(tree, r.commands, r.groups.Keys) && Spelled(r) && LeafHasAlias(tree, p, t, s)
    ensures var k := Join(p + [t]); PathOk(p + [t]) && k in r.commands && s in AllAliases(r.commands[k]) && Split(k) == p + [t]
  {
    LeafIsRegisteredCommand(r, tree, p + [t]);
    LeafPathIsOk(r, tree, p + [t]);
    SplitJoin(p + [t]);
  }

  /** Whatever the parser puts at or below an alias is a group: a command there would have been refused. */
  lemma {:induction false} OnlyGroupsMeet(r: Registry, p: Path, t: string, s: string, e: string)
    requires Registration.Valid(r) && Spelled(r) && PathOk(p + [t]) && Split(Join(p + [t])) == p + [t] && Join(p + [t]) in r.commands
    requires s in AllAliases(r.commands[Join(p + [t])]) && s != t && (e in r.commands || e in r.groups) && p + [s] <= Segments(e)
    ensures e !in r.commands && MeetsGroup(r, Join(p + [t]), s, e) && Beside(Join(p + [t]), s) == p + [s]
  {
    hide Registration.Valid, Spelled, Split, Join, NonEmpty;
    NonEmptyKeepsGoodPaths(Split(e));
    assert (p + [s])[|p|] == Segments(e)[|p|];
    assert (p + [t])[..|p|] == p;
    if e in r.commands {
      SpelledKeysAreSegments(r, e);
      AliasBlocksPath(r, p, t, s, e);
    }
  }

  /** A command whose alias meets a group, in the tree. */
  lemma {:induction false} MeetingShows(r: Registry, tree: Node, k: string, s: string, g: string) returns (p: Path, t: string)
    requires Registration.Valid(r) && TreeOf(tree, r.commands, r.groups.Keys) && Spelled(r) && MeetsGroup(r, k, s, g)
    ensures p + [t] == Split(k) && Beside(k, s) == p + [s] && LeafHasAlias(tree, p, t, s) && At(tree, p + [s]).Some?
  {
    hide Registration.Valid, Spelled, TreeOf, Split, LeafAt, At, Segments;
    var q := Split(k);
    p, t := q[..|q| - 1], q[|q| - 1];
    assert p + [t] == q;
    RegisteredCommandIsLeaf(r, tree, q);
    GroupIsNode(r, tree, p + [s], g);
  }

  lemma {:induction false} GroupIsNode(r: Registry, tree: Node, p: Path, g: string)
    requires TreeOf(tree, r.commands, r.groups.Keys) && g in r.groups && p <= Segments(g)
    ensures At(tree, p).Some?
  {
    hide Segments, At;
    assert g in r.commands.Keys + r.groups.Keys;
    assert OnTheWay(p, r.commands.Keys + r.groups.Keys);
  }

  /** Over a valid, spelled registry aliases are never sibling nodes exactly when none meets a group. */
  lemma {:induction false} AliasesAreNoNodesIff(r: Registry, tree: Node)
    requires Registration.Valid(r) && TreeOf(tree, r.commands, r.groups.Keys) && Spelled(r)
    ensures AliasesAreNoNodes(tree) <==> forall k, s, g :: !MeetsGroup(r, k, s, g)
  {
    if forall k, s, g :: !MeetsGroup(r, k, s, g) {
      forall p, t, s | LeafHasAlias(tree, p, t, s) ensures At(tree, p + [s]).None? {
        if At(tree, p + [s]).Some? { MeetingFound(r, tree, p, t, s); }
      }
    } else {
      var k, s, g :| MeetsGroup(r, k, s, g);
      var p, t := MeetingShows(r, tree, k, s, g);
    }
  }

  lemma {:induction false} MeetingFound(r: Registry, tree: Node, p: Path, t: string, s: string)
    requires Registration.Valid(r) && TreeOf(tree, r.commands, r.groups.Keys) && Spelled(r)
    requires LeafHasAlias(tree, p, t, s) && At(tree, p + [s]).Some?
    ensures exists k, g :: MeetsGroup(r, k, s, g)
  {
    hide Registration.Valid, Spelled, LeafAt, At, Split, Join, Segments;
    assert OnTheWay(p + [s], r.commands.Keys + r.groups.Keys);
    var e :| e in r.commands.Keys + r.groups.Keys && p + [s] <= Segments(e);
    AliasedLeaf(r, tree, p, t, s);
    OnlyGroupsMeet(r, p, t, s, e);
  }

  /** ... and names of sibling subcommands exactly when none meets a group with something in it. */
  lemma {:induction false} AliasesAreNoSubcommandsIff(r: Registry, tree: Node)
    requires Registration.Valid(r) && TreeOf(tree, r.commands, r.groups.Keys) && Spelled(r)
    ensures AliasesAreNoSubcommands(tree) <==> forall k, s, g :: !MeetsSubcommand(r, k, s, g)
  {
    if forall k, s, g :: !MeetsSubcommand(r, k, s, g) {
      forall p, t, s | LeafHasAlias(tree, p, t, s) ensures !HasSubcommand(tree, p + [s]) {
        if HasSubcommand(tree, p + [s]) { SubcommandFound(r, tree, p, t, s); }
      }
    } else {
      var k, s, g :| MeetsSubcommand(r, k, s, g);
      var p, t := MeetingShows(r, tree, k, s, g);
      RootNodes(tree, p + [s]);
      ChildlessMeansLast(tree, r.commands, r.groups.Keys, p + [s]);
      assert g in r.commands.Keys + r.groups.Keys;
    }
  }

  lemma {:induction false} SubcommandFound(r: Registry, tree: Node, p: Path, t: string, s: string)
    requires Registration.Valid(r) && TreeOf(tree, r.commands, r.groups.Keys) && Spelled(r)
    requires LeafHasAlias(tree, p, t, s) && HasSubcommand(tree, p + [s])
    ensures exists k, g :: MeetsSubcommand(r, k, s, g)
  {
    hide Registration.Valid, Spelled, LeafAt, At, Split, Join, Segments, HasSubcommand;
    var q := p + [s];
    RootNodes(tree, q);
    AliasedLeaf(r, tree, p, t, s);
    var e := KeyUnder(r, tree, q);
    OnlyGroupsMeet(r, p, t, s, e);
    assert MeetsSubcommand(r, Join(p + [t]), s, e);
  }

  /** A node the parser keeps has a command, or something below it. */
  lemma {:induction false} KeyUnder(r: Registry, tree: Node, q: Path) returns (e: string)
    requires TreeOf(tree, r.commands, r.groups.Keys) && At(tree, q).Some?
    requires At(tree, q).value.children != map[] || At(tree, q).value.command.Some?
    ensures (e in r.commands || e in r.groups) && q <= Segments(e) && (e !in r.commands ==> ProperPrefix(q, Segments(e)))
  {
    hide At, Segments;
    if At(tree, q).value.command.Some? {
      assert CommandAt(tree, q).Some?;
      e :| e in r.commands && Segments(e) == q;
    } else {
      ChildlessMeansLast(tree, r.commands, r.groups.Keys, q);
      e :| e in r.commands.Keys + r.groups.Keys && ProperPrefix(q, Segments(e));
    }
  }

  /** Groups without empty segments are met by no alias. */
  lemma {:induction false} SpelledGroupsMeetNone(r: Registry, k: string, s: string, g: string)
    requires Registration.Valid(r) && g in r.groups && NoEmptySegment(Split(g))
    ensures !MeetsGroup(r, k, s, g)
  {
    if MeetsGroup(r, k, s, g) {
      var q := Split(k);
      var p, t := q[..|q| - 1], q[|q| - 1];
      assert p + [t] == q;
      NonEmptyKeepsGoodPaths(Split(g));
      AliasBlocksPath(r, p, t, s, g);
    }
  }

  function WithAlias(): Command { Registration.Plain().(aliases := ["b"]) }

  function EmptyInGroup(): Registry {
    Registry(map["a/x" := WithAlias()], map["a//b/c" := GroupMetadata("", false, None, None)])
  }

  /** Such a group: "a//b/c" beside the command "a/x" with the alias "b". */
  lemma {:induction false} AliasMayMeetGroup(tree: Node)
    requires TreeOf(tree, EmptyInGroup().commands, EmptyInGroup().groups.Keys)
    ensures Registration.Valid(EmptyInGroup()) && Spelled(EmptyInGroup())
    ensures MeetsSubcommand(EmptyInGroup(), "a/x", "b", "a//b/c") && !AliasesAreNoSubcommands(tree)
  {
    EmptyInGroupValid();
    EmptyInGroupSpelled();
    EmptyInGroupMeets();
    hide Split, Join, TreeOf, Registration.Valid, Spelled, MeetsSubcommand, AliasesAreNoSubcommands;
    AliasesAreNoSubcommandsIff(EmptyInGroup(), tree);
  }

  lemma {:induction false} EmptyInGroupSpelled()
    ensures Spelled(EmptyInGroup())
  {
    EmptyInGroupSplits();
    hide Split, Segments;
    assert ["a", "x"][1][0] != ["a", "b", "c"][1][0];
    assert ["a", "b", "c"][..2][1] == "b";
  }

  lemma {:induction false} EmptyInGroupMeets()
    ensures MeetsSubcommand(EmptyInGroup(), "a/x", "b", "a//b/c")
  {
    EmptyInGroupSplits();
    hide Split, Segments;
    assert ["a", "x"][..1] + ["b"] == ["a", "b"] && ["a", "b", "c"][..2] == ["a", "b"];
    assert AllAliases(WithAlias()) == ["b"] && "b"[0] != "x"[0] && '/' !in "b";
  }

  lemma {:induction false} JoinCons(x: string, rest: Path)
    requires rest != []
    ensures Join([x] + rest) == x + "/" + Join(rest)
  {
    assert ([x] + rest)[1..] == rest;
  }

  lemma {:induction false} JoinThree(x: string, y: string, z: string)
    ensures Join([x, y]) == x + "/" + y && Join([x, y, z]) == x + "/" + (y + "/" + z)
  {
    JoinCons(x, [y]);
    JoinCons(y, [z]);
    JoinCons(x, [y, z]);
    assert [x] + [y] == [x, y] && [y] + [z] == [y, z] && [x] + [y, z] == [x, y, z];
  }

  lemma {:induction false} EmptyInGroupJoins()
    ensures Join(["a", "x"]) == "a/x" && Join(["a", "b"]) == "a/b" && Join(["a", "", "b", "c"]) == "a//b/c"
  {
    JoinThree("a", "x", "");
    JoinThree("a", "b", "");
    JoinThree("", "b", "c");
    JoinCons("a", ["", "b", "c"]);
    hide Join;
    assert ["a"] + ["", "b", "c"] == ["a", "", "b", "c"];
    assert "a" + "/" + "x" == "a/x" && "a" + "/" + "b" == "a/b";
    assert "a" + "/" + ("" + "/" + ("b" + "/" + "c")) == "a//b/c";
  }

  lemma {:induction false} NonEmptyDrops(x: string, rest: Path)
    ensures NonEmpty([x] + rest) == (if x == "" then [] else [x]) + NonEmpty(rest)
  {
    assert ([x] + rest)[1..] == rest;
  }

  lemma {:induction false} EmptyInGroupSplits()
    ensures Split("a/x") == ["a", "x"] && Segments("a//b/c") == ["a", "b", "c"]
  {
    var q := ["a", "", "b", "c"];
    EmptyInGroupJoins();
    hide Split, Join, NonEmpty;
    SplitJoin(["a", "x"]);
    SplitJoin(q);
    NonEmptyDrops("a", ["", "b", "c"]);
    NonEmptyDrops("", ["b", "c"]);
    NonEmptyKeepsGoodPaths(["b", "c"]);
    assert q == ["a"] + ["", "b", "c"] && ["", "b", "c"] == [""] + ["b", "c"];
  }

  lemma {:induction false} EmptyInGroupValid()
    ensures Registration.Valid(EmptyInGroup())
  {
    NothingAbove();
    OneAlias();
    hide Split, Join, AliasKeys, Registration.Valid;
    var g := GroupMetadata("", false, None, None);
    assert Aliases(Cmd("a/x", WithAlias())) == {"a/b"} && Aliases(Grp("a//b/c", g)) == {};
    Registration.PairIsValid("a/x", WithAlias(), "a//b/c", g);
  }

  lemma {:induction false} OneAlias()
    ensures AliasKeys("a/x", WithAlias()) == {"a/b"}
  {
    EmptyInGroupSplits();
    EmptyInGroupJoins();
    hide Split, Join, Segments;
    assert ["a", "x"][..1] + ["b"] == ["a", "b"];
    assert '/' !in "b";
    assert AliasKey("a/x", "b") == "a/b";
    assert AllAliases(WithAlias()) == ["b"];
  }

  lemma {:induction false} NothingAbove()
    ensures !AtOrAbove("a/x", "a//b/c") && !AtOrAbove("a//b/c", "a/x") && !AtOrAbove("a/b", "a//b/c")
  {
    var g := "a//b/c";
    assert g[2] == '/' && "a/x"[2] == 'x' && "a/b"[2] == 'b';
    assert ("a/x" + "/")[2] == 'x' && ("a/b" + "/")[2] == 'b';
  }

  lemma {:induction false} LeafPathIsOk(r: Registry, tree: Node, p: Path)
    requires TreeOf(tree, r.commands, r.groups.Keys) && p != [] && LeafAt(tree, p).Some?
    ensures PathOk(p)
  {
    RootLeaves(tree, p, LeafAt(tree, p).value);
    assert CommandAt(tree, p).Some?;
    var e :| e in r.commands && Segments(e) == p;
    NonEmptyKeepsGoodPaths(Split(e));
  }

  /** In the registry: commands beside each other with a common alias are the same. */
  lemma {:induction false} SharedAlias(r: Registry, p: Path, t: string, u: string, a: string)
    requires Registration.Valid(r) && PathOk(p + [t]) && PathOk(p + [u])
    requires Join(p + [t]) in r.commands && Join(p + [u]) in r.commands
    requires a in AllAliases(r.commands[Join(p + [t])]) && a in AllAliases(r.commands[Join(p + [u])])
    ensures t == u
  {
    var j, k := Join(p + [t]), Join(p + [u]);
    var x, y := Cmd(j, r.commands[j]), Cmd(k, r.commands[k]);
    if '/' !in a {
      LeafAlias(p, t, a);
      LeafAlias(p, u, a);
    }
    var n := AliasKey(j, a);
    assert n in Aliases(x) && n in Aliases(y);
    Registration.NamesHaveOneOwner(r, x, y, n);
    SplitJoin(p + [t]);
    SplitJoin(p + [u]);
    assert (p + [t])[|p|] == (p + [u])[|p|];
  }

  /** Two subcommands of one group never share an alias, slashes or not. */
  lemma {:induction false} SiblingAliasesDiffer(r: Registry, tree: Node, p: Path, t: string, u: string, a: string)
    requires Registration.Valid(r) && TreeOf(tree, r.commands, r.groups.Keys) && Spelled(r)
    requires LeafAt(tree, p + [t]).Some? && LeafAt(tree, p + [u]).Some?
    requires a in LeafAt(tree, p + [t]).value.aliases || a in LeafAt(tree, p + [t]).value.hiddenAliases
    requires a in LeafAt(tree, p + [u]).value.aliases || a in LeafAt(tree, p + [u]).value.hiddenAliases
    ensures t == u
  {
    hide Registration.Valid, TreeOf, Spelled;
    LeafIsRegisteredCommand(r, tree, p + [t]);
    LeafIsRegisteredCommand(r, tree, p + [u]);
    LeafPathIsOk(r, tree, p + [t]);
    LeafPathIsOk(r, tree, p + [u]);
    SharedAlias(r, p, t, u, a);
  }

  /** The name of the subcommand the root adds by itself when no command is called that. */
  const VERSION := "version"

  /** The added `version` subcommand meets one of the same name, or an alias, among the root's own. */
  ghost predicate VersionClashes(tree: Node) {
    VERSION in BuildChildren(tree)
    || exists t :: LeafAt(tree, [t]).Some? && VERSION in AllAliases(LeafAt(tree, [t]).value)
  }

  /** Something is below "version", empty segments dropped. */
  ghost predicate BelowVersion(r: Registry) {
    exists e :: e in r.commands.Keys + r.groups.Keys && ProperPrefix([VERSION], Segments(e))
  }

  /**
   * `build_clap_root` only asks whether a command "version" exists. Without one, what it adds is ambiguous
   * exactly when the parser finds something registered below "version" or some command has that as an alias.
   */
  lemma {:induction false} VersionClashesIff(r: Registry, tree: Node)
    requires Registration.Valid(r) && TreeOf(tree, r.commands, r.groups.Keys) && Spelled(r) && VERSION !in r.commands
    ensures VersionClashes(tree) <==> BelowVersion(r) || Aliased(r, VERSION)
  {
    VersionNodeIff(r, tree);
    RootAlias(r, VERSION);
    VersionAliasIff(r, tree);
  }

  lemma {:induction false} VersionAliasIff(r: Registry, tree: Node)
    requires Registration.Valid(r) && TreeOf(tree, r.commands, r.groups.Keys) && Spelled(r)
    ensures (exists t :: LeafAt(tree, [t]).Some? && VERSION in AllAliases(LeafAt(tree, [t]).value))
       <==> (exists e :: e in r.commands && '/' !in e && VERSION in AllAliases(r.commands[e]))
  {
    hide Registration.Valid, TreeOf, Spelled, LeafAt;
    if t :| LeafAt(tree, [t]).Some? && VERSION in AllAliases(LeafAt(tree, [t]).value) {
      LeafIsRegisteredCommand(r, tree, [t]);
      LeafPathIsOk(r, tree, [t]);
      assert Join([t]) == t && '/' !in [t][0];
    }
    if e :| e in r.commands && '/' !in e && VERSION in AllAliases(r.commands[e]) {
      assert Join([e]) == e;
      RegisteredCommandIsLeaf(r, tree, [e]);
    }
  }

  /** A root-level name is an alias exactly when a root-level command lists it. */
  lemma {:induction false} RootAlias(r: Registry, name: string)
    requires '/' !in name
    ensures Aliased(r, name) <==> exists e :: e in r.commands && '/' !in e && name in AllAliases(r.commands[e])
  {
    if Aliased(r, name) {
      var e :| e in r.commands && name in AliasKeys(e, r.commands[e]);
      var a :| a in AllAliases(r.commands[e]) && AliasKey(e, a) == name;
      var q := Split(e)[..|Split(e)| - 1] + [a];
      assert '/' !in a;
      SplitJoin(q);
      assert Split(name) == [name];
      assert q == [name] && a == name && |Split(e)| == 1 && e == Split(e)[0];
    }
    if e :| e in r.commands && '/' !in e && name in AllAliases(r.commands[e]) {
      assert Split(e) == [e] && [e][..0] + [name] == [name];
      assert AliasKey(e, name) == name && name in AliasKeys(e, r.commands[e]);
    }
  }

  lemma {:induction false} VersionNodeIff(r: Registry, tree: Node)
    requires TreeOf(tree, r.commands, r.groups.Keys) && Spelled(r) && VERSION !in r.commands
    ensures VERSION in BuildChildren(tree) <==> BelowVersion(r)
  {
    if VERSION in tree.children {
      assert At(tree, [VERSION]) == Some(tree.children[VERSION]) by { assert [VERSION][1..] == []; }
      ChildlessMeansLast(tree, r.commands, r.groups.Keys, [VERSION]);
      if CommandAt(tree, [VERSION]).Some? {
        var e :| e in r.commands && Segments(e) == [VERSION];
        SpelledKeysAreSegments(r, e);
      }
    }
    if BelowVersion(r) {
      var e :| e in r.commands.Keys + r.groups.Keys && ProperPrefix([VERSION], Segments(e));
      assert [VERSION] <= Segments(e);
      assert OnTheWay([VERSION], r.commands.Keys + r.groups.Keys);
      assert At(tree, [VERSION]).Some?;
    }
  }

  function VersionBelow(): Registry { Registry(map["version/x" := Registration.Plain()], map[]) }

  /** A command "version/x" is enough: the added `version` meets the group above it. */
  lemma {:induction false} VersionMayClash(tree: Node)
    requires TreeOf(tree, VersionBelow().commands, VersionBelow().groups.Keys)
    ensures Registration.Valid(VersionBelow()) && Spelled(VersionBelow()) && VERSION !in VersionBelow().commands
    ensures VersionClashes(tree)
  {
    VersionBelowSplits();
    Registration.OneIsValid("version/x", Registration.Plain());
    hide Join, Split, TreeOf, Registration.Valid, VersionClashes;
    NonEmptyKeepsGoodPaths([VERSION, "x"]);
    assert "version/x" in VersionBelow().commands.Keys + VersionBelow().groups.Keys;
    assert [VERSION, "x"][..1] == [VERSION] && |VERSION| != |"version/x"|;
    VersionClashesIff(VersionBelow(), tree);
  }

  lemma {:induction false} VersionBelowSplits()
    ensures Split("version/x") == [VERSION, "x"]
  {
    var p := [VERSION, "x"];
    assert Join(p) == "version/x" by { assert p[1..] == ["x"] && VERSION + "/" + "x" == "version/x"; }
    hide Join;
    SplitJoin(p);
  }
}
