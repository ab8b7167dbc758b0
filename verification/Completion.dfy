/** The completion surface built from the registry (src/app/builder.rs). */
module Completion {
  import opened PathKeys
  import opened Namespace
  import opened ClapTree
  import Registration

  datatype CompletionNode = CompletionNode(subcommands: set<string>, flags: set<string>)

  const BARE := CompletionNode({}, {})

  const HELP := "--help"

  /** The space-joined key of a path; the root's is empty. */
  function SpaceKey(p: Path): string {
    if p == [] then "" else if |p| == 1 then p[0] else p[0] + " " + SpaceKey(p[1..])
  }

  /** The key one segment further down, as `insert_completion_path` extends `parent`. */
  function Extend(parent: string, segment: string): string {
    if parent == "" then segment else parent + " " + segment
  }

  lemma {:induction false} SpaceKeyExtends(p: Path, s: string)
    requires NoEmptySegment(p)
    ensures SpaceKey(p + [s]) == Extend(SpaceKey(p), s) && (p != [] ==> SpaceKey(p) != "")
  {
    if |p| == 1 {
      assert (p + [s])[1..] == [s];
    } else if |p| > 1 {
      assert (p + [s])[1..] == p[1..] + [s];
      SpaceKeyExtends(p[1..], s);
    }
  }

  predicate SpaceFree(p: Path) { forall i :: 0 <= i < |p| ==> ' ' !in p[i] && p[i] != "" }

  /** Space-free segments can be read back from the key. */
  lemma {:induction false} SpaceKeyInjective(p: Path, q: Path)
    requires SpaceFree(p) && SpaceFree(q) && SpaceKey(p) == SpaceKey(q)
    ensures p == q
    decreases |p|
  {
    if p == [] || q == [] {
    } else {
      var s, t := SpaceKey(p), SpaceKey(q);
      assert |p| > 1 ==> s[|p[0]|] == ' ';
      assert |q| > 1 ==> t[|q[0]|] == ' ';
      assert s[..|p[0]|] == p[0] && t[..|q[0]|] == q[0];
      assert forall i :: 0 <= i < |p[0]| ==> s[i] == p[0][i];
      assert forall i :: 0 <= i < |q[0]| ==> t[i] == q[0][i];
      assert |p[0]| == |q[0]|;
      if |p| > 1 && |q| > 1 {
        assert s[|p[0]| + 1..] == SpaceKey(p[1..]) && t[|q[0]| + 1..] == SpaceKey(q[1..]);
        SpaceKeyInjective(p[1..], q[1..]);
        assert p == [p[0]] + p[1..] && q == [q[0]] + q[1..];
      }
    }
  }

  // ---------------------------------------------------------------- specification

  /** The step from `q[..i]` to `q[..i + 1]` is offered at `key` as `s`. */
  predicate OffersAt(q: Path, i: int, key: string, s: string) {
    0 <= i < |q| && key == SpaceKey(q[..i]) && s == q[i]
  }

  ghost predicate PassesThrough(q: Path, key: string) { exists i :: 0 <= i <= |q| && key == SpaceKey(q[..i]) }

  ghost predicate Offers(q: Path, key: string, s: string) { exists i :: OffersAt(q, i, key, s) }

  function VisibleCommands(r: Registry): set<string> { set k | k in r.commands && !r.commands[k].hidden }

  function VisibleGroups(r: Registry): set<string> { set k | k in r.groups && !r.groups[k].hidden }

  /** The nodes are the prefixes of the visible keys, and each offers the next segments of those that pass through it. */
  ghost predicate Shape(nodes: map<string, CompletionNode>, keys: set<string>) {
    && (forall n :: n in nodes <==> n == "" || exists k :: k in keys && PassesThrough(Segments(k), n))
    && (forall n, s :: n in nodes ==>
          (s in nodes[n].subcommands <==> exists k :: k in keys && Offers(Segments(k), n, s)))
  }

  ghost predicate OwnFlag(r: Registry, keys: set<string>, n: string, f: string) {
    exists k :: k in keys && k in r.commands && SpaceKey(Segments(k)) == n && f in r.commands[k].flags
  }

  ghost predicate Flags(r: Registry, nodes: map<string, CompletionNode>, keys: set<string>, help: bool) {
    forall n, f :: n in nodes ==> (f in nodes[n].flags <==> OwnFlag(r, keys, n, f) || (help && f == HELP))
  }

  /** What the completion model of a registry is, whatever order its maps are walked in. */
  ghost predicate ModelOf(r: Registry, nodes: map<string, CompletionNode>) {
    Shape(nodes, VisibleGroups(r) + VisibleCommands(r)) && Flags(r, nodes, VisibleCommands(r), true)
  }

  lemma {:induction false} ModelIsUnique(r: Registry, m: map<string, CompletionNode>, n: map<string, CompletionNode>)
    requires ModelOf(r, m) && ModelOf(r, n)
    ensures m == n
  {
    forall k | k in m ensures k in n && m[k] == n[k] {
      assert m[k].subcommands == n[k].subcommands;
      assert m[k].flags == n[k].flags;
    }
    assert m.Keys == n.Keys;
  }

  // -------------------------------------------------------------------- building

  function Entry(nodes: map<string, CompletionNode>, key: string): CompletionNode {
    if key in nodes then nodes[key] else BARE
  }

  /** The model after the first `i` segments of `q` have been recorded. */
  function Recorded(nodes: map<string, CompletionNode>, q: Path, i: nat): map<string, CompletionNode>
    requires i <= |q|
  {
    if i == 0 then nodes
    else
      var before, parent := Recorded(nodes, q, i - 1), SpaceKey(q[..i - 1]);
      var node := Entry(before, parent);
      before[parent := node.(subcommands := node.subcommands + {q[i - 1]})]
  }

  /** The model after all of `q`, its own node included. */
  function WithPath(nodes: map<string, CompletionNode>, q: Path): map<string, CompletionNode> {
    var m := Recorded(nodes, q, |q|);
    m[SpaceKey(q) := Entry(m, SpaceKey(q))]
  }

  lemma {:induction false} RecordedMeans(nodes: map<string, CompletionNode>, q: Path, i: nat, n: string)
    requires i <= |q|
    ensures var m := Recorded(nodes, q, i);
            && (n in m <==> n in nodes || exists j :: 0 <= j < i && n == SpaceKey(q[..j]))
            && (forall s :: s in Entry(m, n).subcommands
                            <==> s in Entry(nodes, n).subcommands || exists j :: j < i && OffersAt(q, j, n, s))
            && Entry(m, n).flags == Entry(nodes, n).flags
  {
    if i > 0 {
      RecordedMeans(nodes, q, i - 1, n);
      var before, m := Recorded(nodes, q, i - 1), Recorded(nodes, q, i);
      forall s ensures s in Entry(m, n).subcommands <==> s in Entry(nodes, n).subcommands || exists j :: j < i && OffersAt(q, j, n, s) {
        if n == SpaceKey(q[..i - 1]) && s == q[i - 1] {
          assert OffersAt(q, i - 1, n, s);
        } else {
          assert !OffersAt(q, i - 1, n, s);
        }
      }
    }
  }

  lemma {:induction false} WithPathMeans(nodes: map<string, CompletionNode>, q: Path, n: string)
    ensures var m := WithPath(nodes, q);
            && (n in m <==> n in nodes || PassesThrough(q, n))
            && (forall s :: s in Entry(m, n).subcommands <==> s in Entry(nodes, n).subcommands || Offers(q, n, s))
            && Entry(m, n).flags == Entry(nodes, n).flags
  {
    RecordedMeans(nodes, q, |q|, n);
    assert q[..|q|] == q;
    forall s ensures Offers(q, n, s) <==> exists j :: j < |q| && OffersAt(q, j, n, s) {
      if j :| OffersAt(q, j, n, s) { assert j < |q|; }
    }
  }

  /** Recording one more visible key. */
  lemma {:induction false} ShapeGrows(nodes: map<string, CompletionNode>, keys: set<string>, k: string)
    requires Shape(nodes, keys)
    ensures Shape(WithPath(nodes, Segments(k)), keys + {k})
  {
    var m, more := WithPath(nodes, Segments(k)), keys + {k};
    forall n ensures n in m <==> n == "" || exists e :: e in more && PassesThrough(Segments(e), n) {
      WithPathMeans(nodes, Segments(k), n);
      if e :| e in more && PassesThrough(Segments(e), n) { assert e == k || e in keys; }
      if PassesThrough(Segments(k), n) { assert k in more; }
      if e :| e in keys && PassesThrough(Segments(e), n) { assert e in more; }
    }
    forall n, s | n in m ensures s in m[n].subcommands <==> exists e :: e in more && Offers(Segments(e), n, s) {
      WithPathMeans(nodes, Segments(k), n);
      OfferedBefore(nodes, keys, n, s);
      if e :| e in more && Offers(Segments(e), n, s) { assert e == k || e in keys; }
      if Offers(Segments(k), n, s) { assert k in more; }
      if e :| e in keys && Offers(Segments(e), n, s) { assert e in more; }
    }
  }

  lemma {:induction false} OfferedBefore(nodes: map<string, CompletionNode>, keys: set<string>, n: string, s: string)
    requires Shape(nodes, keys)
    ensures s in Entry(nodes, n).subcommands <==> exists e :: e in keys && Offers(Segments(e), n, s)
  {
    forall q | Offers(q, n, s) ensures PassesThrough(q, n) {
      var i :| OffersAt(q, i, n, s);
    }
  }

  /** The flags of one more visible command, at its own node. */
  function WithFlags(nodes: map<string, CompletionNode>, key: string, flags: set<string>): map<string, CompletionNode> {
    nodes[key := Entry(nodes, key).(flags := Entry(nodes, key).flags + flags)]
  }

  lemma {:induction false} FlagsGrow(r: Registry, nodes: map<string, CompletionNode>, keys: set<string>, done: set<string>, k: string)
    requires Shape(nodes, keys) && Flags(r, nodes, done, false) && done <= keys && k in r.commands
    ensures var m := WithFlags(WithPath(nodes, Segments(k)), SpaceKey(Segments(k)), r.commands[k].flags);
            Shape(m, keys + {k}) && Flags(r, m, done + {k}, false)
  {
    var q, flags := Segments(k), r.commands[k].flags;
    var mid := WithPath(nodes, q);
    var m := WithFlags(mid, SpaceKey(q), flags);
    ShapeGrows(nodes, keys, k);
    assert SpaceKey(q) in mid;
    ShapeIgnoresFlags(mid, m, keys + {k});
    forall n, f | n in m ensures f in m[n].flags <==> OwnFlag(r, done + {k}, n, f) {
      WithPathMeans(nodes, q, n);
      NewNodesHaveNoFlags(r, nodes, keys, done, n, f);
      OwnFlagGrows(r, done, k, n, f);
    }
  }

  lemma {:induction false} ShapeIgnoresFlags(m: map<string, CompletionNode>, n: map<string, CompletionNode>, keys: set<string>)
    requires Shape(m, keys) && m.Keys == n.Keys && forall k :: k in m ==> n[k].subcommands == m[k].subcommands
    ensures Shape(n, keys)
  {
  }

  lemma {:induction false} OwnFlagGrows(r: Registry, done: set<string>, k: string, n: string, f: string)
    requires k in r.commands
    ensures OwnFlag(r, done + {k}, n, f) <==> OwnFlag(r, done, n, f) || (SpaceKey(Segments(k)) == n && f in r.commands[k].flags)
  {
    if SpaceKey(Segments(k)) == n && f in r.commands[k].flags { assert k in done + {k}; }
    if e :| e in done && e in r.commands && SpaceKey(Segments(e)) == n && f in r.commands[e].flags { assert e in done + {k}; }
  }

  lemma {:induction false} NewNodesHaveNoFlags(r: Registry, nodes: map<string, CompletionNode>, keys: set<string>, done: set<string>, n: string, f: string)
    requires Shape(nodes, keys) && Flags(r, nodes, done, false) && done <= keys
    ensures f in Entry(nodes, n).flags <==> OwnFlag(r, done, n, f)
  {
    if OwnFlag(r, done, n, f) {
      var e :| e in done && e in r.commands && SpaceKey(Segments(e)) == n && f in r.commands[e].flags;
      assert Segments(e)[..|Segments(e)|] == Segments(e);
      assert PassesThrough(Segments(e), n);
    }
  }

  class CompletionModel {
    var nodes: map<string, CompletionNode>

    constructor ()
      ensures nodes == map["" := BARE] && Shape(nodes, {})
    {
      nodes := map["" := BARE];
    }

    /** `insert_completion_path`. */
    method InsertPath(path: string)
      modifies this
      ensures nodes == WithPath(old(nodes), Segments(path))
    {
      var q := Segments(path);
      NonEmptyKeepsGoodPaths(Split(path));
      var parent := "";
      assert SpaceKey(q[..0]) == "" by { assert q[..0] == []; }
      hide Split, Join, NonEmpty, Segments, SpaceKey, Extend, Entry;
      for i := 0 to |q|
        invariant parent == SpaceKey(q[..i]) && nodes == Recorded(old(nodes), q, i)
      {
        var node := Entry(nodes, parent);
        nodes := nodes[parent := node.(subcommands := node.subcommands + {q[i]})];
        assert q[..i + 1] == q[..i] + [q[i]];
        SpaceKeyExtends(q[..i], q[i]);
        parent := Extend(parent, q[i]);
      }
      assert q[..|q|] == q;
      nodes := nodes[parent := Entry(nodes, parent)];
    }

    /** The visible groups, in any order. */
    method InsertGroups(r: Registry)
      requires nodes == map["" := BARE] && Shape(nodes, {})
      modifies this
      ensures Shape(nodes, VisibleGroups(r)) && Flags(r, nodes, {}, false)
    {
      hide Shape, Segments, WithPath;
      var left := VisibleGroups(r);
      assert VisibleGroups(r) - left == {};
      while left != {}
        invariant left <= VisibleGroups(r) && Shape(nodes, VisibleGroups(r) - left)
        invariant forall n :: Entry(nodes, n).flags == {}
        decreases left
      {
        var k :| k in left;
        ShapeGrows(nodes, VisibleGroups(r) - left, k);
        forall n ensures Entry(WithPath(nodes, Segments(k)), n).flags == Entry(nodes, n).flags { WithPathMeans(nodes, Segments(k), n); }
        InsertPath(k);
        assert VisibleGroups(r) - (left - {k}) == VisibleGroups(r) - left + {k};
        left := left - {k};
      }
      assert VisibleGroups(r) - left == VisibleGroups(r);
      assert forall n :: n in nodes ==> Entry(nodes, n) == nodes[n];
    }

    /** The visible commands with their flags, in any order. */
    method InsertCommands(r: Registry)
      requires Shape(nodes, VisibleGroups(r)) && Flags(r, nodes, {}, false)
      modifies this
      ensures Shape(nodes, VisibleGroups(r) + VisibleCommands(r)) && Flags(r, nodes, VisibleCommands(r), false)
    {
      hide Shape, Flags, Segments, WithPath, SpaceKey;
      var groups, all := VisibleGroups(r), VisibleCommands(r);
      var left := all;
      assert all - left == {} && groups + {} == groups;
      while left != {}
        invariant left <= all && Shape(nodes, groups + (all - left)) && Flags(r, nodes, all - left, false)
        decreases left
      {
        var k :| k in left;
        FlagsGrow(r, nodes, groups + (all - left), all - left, k);
        InsertPath(k);
        nodes := WithFlags(nodes, SpaceKey(Segments(k)), r.commands[k].flags);
        assert all - (left - {k}) == all - left + {k};
        assert groups + (all - (left - {k})) == groups + (all - left) + {k};
        left := left - {k};
      }
      assert all - left == all;
    }

    /** `build_completion_model`. */
    method Build(r: Registry)
      requires nodes == map["" := BARE] && Shape(nodes, {})
      modifies this
      ensures ModelOf(r, nodes)
    {
      InsertGroups(r);
      InsertCommands(r);
      ghost var before := nodes;
      var left := nodes.Keys;
      while left != {}
        invariant left <= nodes.Keys == before.Keys
        invariant forall n :: n in left ==> nodes[n] == before[n]
        invariant forall n :: n in nodes && n !in left ==> nodes[n] == before[n].(flags := before[n].flags + {HELP})
        decreases left
      {
        hide Shape, Flags;
        var n :| n in left;
        nodes := nodes[n := nodes[n].(flags := nodes[n].flags + {HELP})];
        left := left - {n};
      }
      ShapeIgnoresFlags(before, nodes, VisibleGroups(r) + VisibleCommands(r));
    }
  }

  // ------------------------------------------------------------------- theorems

  /** A key is shown for itself when its command, or its group, is not hidden. */
  predicate Shown(r: Registry, k: string) {
    (k in r.commands && !r.commands[k].hidden) || (k in r.groups && !r.groups[k].hidden)
  }

  /**
   * There is a node for the root and for every prefix of a key that is shown, and no other: hiding a command
   * takes its path out unless another shown key passes there. A node's flags are `--help` and the flags of
   * the commands at it that are not hidden.
   */
  lemma {:induction false} HiddenStaysOut(r: Registry, nodes: map<string, CompletionNode>, n: string, f: string)
    requires ModelOf(r, nodes)
    ensures n in nodes <==> n == "" || exists k :: Shown(r, k) && PassesThrough(Segments(k), n)
    ensures n in nodes ==>
            (f in nodes[n].flags <==>
             f == "--help" || exists k :: k in r.commands && !r.commands[k].hidden && SpaceKey(Segments(k)) == n && f in r.commands[k].flags)
  {
    hide SpaceKey, Segments, PassesThrough;
    assert forall k :: k in VisibleGroups(r) + VisibleCommands(r) <==> Shown(r, k);
    if n in nodes && OwnFlag(r, VisibleCommands(r), n, f) {
      var k :| k in VisibleCommands(r) && k in r.commands && SpaceKey(Segments(k)) == n && f in r.commands[k].flags;
      assert !r.commands[k].hidden;
    }
    if k :| k in r.commands && !r.commands[k].hidden && SpaceKey(Segments(k)) == n && f in r.commands[k].flags {
      assert k in VisibleCommands(r);
    }
  }

  /** A subcommand is offered exactly when it is the next segment of a key that is shown. */
  lemma {:induction false} OfferedAreShown(r: Registry, nodes: map<string, CompletionNode>, n: string, s: string)
    requires ModelOf(r, nodes) && n in nodes
    ensures s in nodes[n].subcommands <==> exists k :: Shown(r, k) && Offers(Segments(k), n, s)
  {
    hide SpaceKey, Segments, Offers;
    assert forall k :: k in VisibleGroups(r) + VisibleCommands(r) <==> Shown(r, k);
  }

  /** Every offered subcommand leads to a node. */
  lemma {:induction false} OfferedSubcommandsExist(r: Registry, nodes: map<string, CompletionNode>, n: string, s: string)
    requires ModelOf(r, nodes) && n in nodes && s in nodes[n].subcommands
    ensures Extend(n, s) in nodes
  {
    hide Split, Join, NonEmpty, SpaceKey, Extend, VisibleGroups, VisibleCommands;
    var keys := VisibleGroups(r) + VisibleCommands(r);
    var k :| k in keys && Offers(Segments(k), n, s);
    NonEmptyKeepsGoodPaths(Split(k));
    OfferPassesThrough(Segments(k), n, s);
  }

  lemma {:induction false} OfferPassesThrough(q: Path, n: string, s: string)
    requires NoEmptySegment(q) && Offers(q, n, s)
    ensures PassesThrough(q, Extend(n, s))
  {
    var i :| OffersAt(q, i, n, s);
    SpaceKeyExtends(q[..i], q[i]);
    assert q[..i + 1] == q[..i] + [q[i]];
  }

  /** Every node is reached from the root by taking offered subcommands only. */
  lemma {:induction false} NodesAreReachable(r: Registry, nodes: map<string, CompletionNode>, n: string) returns (p: Path)
    requires ModelOf(r, nodes) && n in nodes
    ensures n == SpaceKey(p)
    ensures forall i :: 0 <= i < |p| ==> SpaceKey(p[..i]) in nodes && p[i] in nodes[SpaceKey(p[..i])].subcommands
  {
    p := [];
    if n != "" {
      var keys := VisibleGroups(r) + VisibleCommands(r);
      var k :| k in keys && PassesThrough(Segments(k), n);
      var q := Segments(k);
      var j :| 0 <= j <= |q| && n == SpaceKey(q[..j]);
      p := q[..j];
      forall i | 0 <= i < |p| ensures SpaceKey(p[..i]) in nodes && p[i] in nodes[SpaceKey(p[..i])].subcommands {
        assert p[..i] == q[..i];
        assert PassesThrough(q, SpaceKey(q[..i]));
        assert OffersAt(q, i, SpaceKey(q[..i]), q[i]);
        assert Offers(q, SpaceKey(q[..i]), q[i]);
      }
    }
  }

  ghost predicate NoSpaces(r: Registry) {
    forall k :: k in r.commands || k in r.groups ==> ' ' !in k
  }

  lemma {:induction false} SegmentsOfSpaceFreeKey(p: Path)
    requires forall i :: 0 <= i < |p| ==> ' ' !in p[i]
    ensures SpaceFree(NonEmpty(p))
  {
    if p != [] { SegmentsOfSpaceFreeKey(p[1..]); }
  }

  lemma {:induction false} SpaceInJoin(p: Path, i: nat)
    requires i < |p| && ' ' in p[i]
    ensures ' ' in Join(p)
  {
    if i > 0 { SpaceInJoin(p[1..], i - 1); }
  }

  lemma {:induction false} SpaceFreeKeySegments(k: string)
    requires ' ' !in k
    ensures SpaceFree(Segments(k))
  {
    var p := Split(k);
    forall i | 0 <= i < |p| ensures ' ' !in p[i] {
      if ' ' in p[i] { SpaceInJoin(p, i); }
    }
    SegmentsOfSpaceFreeKey(p);
  }

  /** A different path, with something visible below it, has the same space-joined key as the command at `k`. */
  ghost predicate KeyShared(r: Registry, k: string) {
    exists e, i :: e in VisibleGroups(r) + VisibleCommands(r) && SharesKey(Segments(e), i, Segments(k))
  }

  predicate SharesKey(q: Path, i: int, p: Path) {
    0 <= i < |q| && q[..i] != p && SpaceKey(q[..i]) == SpaceKey(p)
  }

  /** Over a valid, properly spelled registry a command's node offers a subcommand exactly when its key is shared. */
  lemma {:induction false} CommandOffersIffKeyShared(r: Registry, nodes: map<string, CompletionNode>, k: string)
    requires Registration.Valid(r) && Spelled(r) && ModelOf(r, nodes) && k in VisibleCommands(r)
    ensures SpaceKey(Segments(k)) in nodes
    ensures nodes[SpaceKey(Segments(k))].subcommands != {} <==> KeyShared(r, k)
  {
    hide Registration.Valid, Spelled, Split, SpaceKey;
    var n, p, keys := SpaceKey(Segments(k)), Segments(k), VisibleGroups(r) + VisibleCommands(r);
    assert p[..|p|] == p && PassesThrough(p, n);
    if nodes[n].subcommands != {} {
      var s :| s in nodes[n].subcommands;
      var e :| e in keys && Offers(Segments(e), n, s);
      var i :| OffersAt(Segments(e), i, n, s);
      SpelledKeysAreSegments(r, k);
      NothingBelowCommand(r, k, e);
      assert SharesKey(Segments(e), i, p);
    }
    if KeyShared(r, k) {
      var e, i :| e in keys && SharesKey(Segments(e), i, p);
      assert OffersAt(Segments(e), i, n, Segments(e)[i]);
      assert Offers(Segments(e), n, Segments(e)[i]);
      assert Segments(e)[i] in nodes[n].subcommands;
    }
  }

  /** Without spaces no key is shared, so no node mixes a command's own flags with subcommands. */
  lemma {:induction false} CommandNodesOfferNoSubcommands(r: Registry, nodes: map<string, CompletionNode>, k: string)
    requires Registration.Valid(r) && Spelled(r) && NoSpaces(r) && ModelOf(r, nodes)
    requires k in VisibleCommands(r)
    ensures SpaceKey(Segments(k)) in nodes && nodes[SpaceKey(Segments(k))].subcommands == {}
  {
    CommandOffersIffKeyShared(r, nodes, k);
    hide Registration.Valid, Spelled, ModelOf, Split, SpaceKey;
    if KeyShared(r, k) {
      var e, i :| e in VisibleGroups(r) + VisibleCommands(r) && SharesKey(Segments(e), i, Segments(k));
      SpaceFreeKeySegments(k);
      SpaceFreeKeySegments(e);
      SpaceKeyInjective(Segments(e)[..i], Segments(k));
    }
  }

  // -------------------------------------------------- why spaces are excluded

  function Flagged(): Command { Registration.Plain().(flags := {"--x"}) }

  /** A command whose one segment has a space in it, and another three segments deep. */
  function Spaced(): Registry { Registry(map["a b" := Flagged(), "a/b/c" := Flagged()], map[]) }

  lemma {:induction false} SpacedSegments()
    ensures Split("a b") == Segments("a b") == ["a b"]
    ensures Split("a/b/c") == Segments("a/b/c") == ["a", "b", "c"]
    ensures SpaceKey(["a", "b", "c"][..2]) == "a b" == SpaceKey(["a b"])
  {
    SpacedSplit();
    SpacedKeys();
    hide Split, Join, SpaceKey;
    NonEmptyKeepsGoodPaths(["a", "b", "c"]);
    NonEmptyKeepsGoodPaths(["a b"]);
  }

  lemma {:induction false} SpacedSplit()
    ensures Split("a b") == ["a b"] && Split("a/b/c") == ["a", "b", "c"]
  {
    var p := ["a", "b", "c"];
    assert Join(["b", "c"]) == "b/c" by { assert ["b", "c"][1..] == ["c"]; }
    assert Join(p) == "a/b/c" by { assert p[1..] == ["b", "c"] && "a" + "/" + "b/c" == "a/b/c"; }
    hide Join;
    SplitJoin(p);
    assert '/' !in "a b";
  }

  lemma {:induction false} SpacedKeys()
    ensures SpaceKey(["a", "b", "c"][..2]) == "a b" == SpaceKey(["a b"])
  {
    assert ["a", "b", "c"][..2] == ["a", "b"] && ["a", "b"][1..] == ["b"];
  }

  lemma {:induction false} SpacedKeysDoNotConflict()
    ensures !Conflict(Cmd("a b", Flagged()), Cmd("a/b/c", Flagged()))
  {
    hide Split, Join;
    var x, y := Cmd("a b", Flagged()), Cmd("a/b/c", Flagged());
    assert Aliases(x) == {} && Aliases(y) == {};
    assert ("a b" + "/")[1] == ' ' && "a/b/c"[1] == '/' && |"a/b/c" + "/"| > |"a b"|;
    assert !Above("a b", "a/b/c") && !Above("a/b/c", "a b");
  }

  lemma {:induction false} SpacedIsValid()
    ensures Registration.Valid(Spaced()) && Spelled(Spaced()) && !NoSpaces(Spaced())
  {
    SpacedSegments();
    SpacedKeysDoNotConflict();
    hide Split, Segments, Conflict;
    var x, y := Cmd("a b", Flagged()), Cmd("a/b/c", Flagged());
    ConflictSymmetric(x, y);
    assert forall z :: Registered(Spaced(), z) ==> z == x || z == y;
    assert "a b"[1] == ' ';
  }

  /** With a space in a segment two paths share a key, and one node offers a command's flag and a subcommand. */
  lemma {:induction false} SpacesMixNodes(nodes: map<string, CompletionNode>)
    requires ModelOf(Spaced(), nodes)
    ensures Registration.Valid(Spaced()) && Spelled(Spaced())
    ensures "a b" in nodes && "--x" in nodes["a b"].flags && "c" in nodes["a b"].subcommands
  {
    SpacedIsValid();
    SpacedSegments();
    hide Registration.Valid, Spelled, Segments, Split, SpaceKey;
    var k, e, q := "a b", "a/b/c", ["a", "b", "c"];
    assert e in VisibleCommands(Spaced()) && k in VisibleCommands(Spaced());
    assert 0 <= 2 <= |q| && k == SpaceKey(q[..2]);
    assert PassesThrough(Segments(e), k);
    assert OffersAt(Segments(e), 2, k, "c");
    assert Offers(Segments(e), k, "c");
    assert OwnFlag(Spaced(), VisibleCommands(Spaced()), k, "--x");
  }
}
