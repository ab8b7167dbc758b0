/** What any sequence of successful registrations guarantees, and why its order does not matter. */
module Registration {
  import opened Wrappers
  import opened PathKeys
  import opened Namespace
  import opened Sequences

  /** The registry is built by registrations none of which conflicts with another. */
  ghost predicate Valid(r: Registry) {
    forall x, y :: Registered(r, x) && Registered(r, y) && x != y ==> !Conflict(x, y)
  }

  /** Adding items one by one as long as none conflicts with what is there. */
  ghost function RunItems(r: Registry, items: seq<Item>): Option<Registry>
    decreases |items|
  {
    if items == [] then Some(r)
    else if Compatible(r, items[0]) then RunItems(Add(r, items[0]), items[1..])
    else None
  }

  lemma {:induction false} AddRegisters(r: Registry, x: Item)
    requires Compatible(r, x)
    ensures forall y :: Registered(Add(r, x), y) <==> Registered(r, y) || y == x
  {
    forall y ensures Registered(Add(r, x), y) <==> Registered(r, y) || y == x {
      if Registered(r, y) && y.key == x.key { assert Conflict(x, y); }
    }
  }

  /** An item that conflicts with nothing keeps the registry valid. */
  lemma {:induction false} AddKeepsValid(r: Registry, x: Item)
    requires Valid(r) && Compatible(r, x)
    ensures Valid(Add(r, x))
  {
    AddRegisters(r, x);
    forall y, z | Registered(Add(r, x), y) && Registered(Add(r, x), z) && y != z ensures !Conflict(y, z) {
      ConflictSymmetric(y, z);
    }
  }

  // ------------------------------------------------------------ order independence

  /** No two of the items conflict. An item conflicts with itself, so none is repeated. */
  ghost predicate AllCompatible(items: seq<Item>) {
    forall i, j :: 0 <= i < j < |items| ==> !Conflict(items[i], items[j])
  }

  ghost predicate CompatibleWith(r: Registry, items: seq<Item>) {
    forall i :: 0 <= i < |items| ==> Compatible(r, items[i])
  }

  /** All are added exactly when no item conflicts with the registry or with another item. */
  lemma {:induction false} ItemsSucceedIff(r: Registry, items: seq<Item>)
    ensures RunItems(r, items).Some? <==> AllCompatible(items) && CompatibleWith(r, items)
    ensures RunItems(r, items).Some? ==>
            forall y :: Registered(RunItems(r, items).value, y) <==> Registered(r, y) || y in items
    decreases |items|
  {
    if items != [] {
      var x, rest := items[0], items[1..];
      if Compatible(r, x) {
        AddRegisters(r, x);
        ItemsSucceedIff(Add(r, x), rest);
        assert items == [x] + rest;
        RestCompatible(r, x, rest);
      } else {
        assert !CompatibleWith(r, items);
      }
    }
  }

  lemma {:induction false} RestCompatible(r: Registry, x: Item, rest: seq<Item>)
    requires Compatible(r, x)
    ensures AllCompatible(rest) && CompatibleWith(Add(r, x), rest)
            <==> AllCompatible([x] + rest) && CompatibleWith(r, [x] + rest)
  {
    var items := [x] + rest;
    AddRegisters(r, x);
    assert forall i :: 0 <= i < |rest| ==> items[i + 1] == rest[i];
    if AllCompatible(rest) && CompatibleWith(Add(r, x), rest) {
      forall i | 0 <= i < |items| ensures Compatible(r, items[i]) {
        if i > 0 { assert Compatible(Add(r, x), rest[i - 1]); }
      }
      forall i, j | 0 <= i < j < |items| ensures !Conflict(items[i], items[j]) {
        assert Compatible(Add(r, x), rest[j - 1]);
        ConflictSymmetric(items[i], items[j]);
        if i > 0 { assert !Conflict(rest[i - 1], rest[j - 1]); }
      }
    }
    if AllCompatible(items) && CompatibleWith(r, items) {
      forall i | 0 <= i < |rest| ensures Compatible(Add(r, x), rest[i]) {
        assert Compatible(r, items[i + 1]);
        ConflictSymmetric(x, rest[i]);
        assert !Conflict(items[0], items[i + 1]);
      }
      forall i, j | 0 <= i < j < |rest| ensures !Conflict(rest[i], rest[j]) {
        assert !Conflict(items[i + 1], items[j + 1]);
      }
    }
  }

  /** Pairwise compatibility does not see the order of the list. */
  lemma {:induction false} CompatibleByMultiset(s: seq<Item>, t: seq<Item>)
    requires multiset(s) == multiset(t) && AllCompatible(s)
    ensures AllCompatible(t)
  {
    forall i, j | 0 <= i < j < |t| ensures !Conflict(t[i], t[j]) {
      var x, y := t[i], t[j];
      if x == y {
        ConflictSymmetric(x, x);
        TwiceInMultiset(t, i, j);
        Duplicated(s, x);
      } else {
        assert x in multiset(t) && y in multiset(t);
        assert x in s && y in s;
        var a, b :| 0 <= a < |s| && 0 <= b < |s| && s[a] == x && s[b] == y;
        ConflictSymmetric(x, y);
        if a < b { assert !Conflict(s[a], s[b]); } else { assert !Conflict(s[b], s[a]); }
      }
    }
  }

  lemma {:induction false} TwiceInMultiset(t: seq<Item>, i: nat, j: nat)
    requires i < j < |t| && t[i] == t[j]
    ensures multiset(t)[t[i]] >= 2
  {
    assert t == t[..j] + t[j..];
    assert t[i] in multiset(t[..j]) by { assert t[..j][i] == t[i]; }
    assert t[j] in multiset(t[j..]) by { assert t[j..][0] == t[j]; }
  }

  lemma {:induction false} Duplicated(s: seq<Item>, x: Item)
    requires multiset(s)[x] >= 2
    ensures exists a, b :: 0 <= a < b < |s| && s[a] == x && s[b] == x
  {
    assert s == [s[0]] + s[1..];
    if s[0] == x {
      assert x in multiset(s[1..]);
      assert x in s[1..];
      var b :| 0 <= b < |s[1..]| && s[1..][b] == x;
      assert 0 <= 0 < b + 1 < |s| && s[0] == x && s[b + 1] == x;
    } else {
      Duplicated(s[1..], x);
      var a, b :| 0 <= a < b < |s[1..]| && s[1..][a] == x && s[1..][b] == x;
      assert 0 <= a + 1 < b + 1 < |s| && s[a + 1] == x && s[b + 1] == x;
    }
  }

  /** Two registries with the same items are the same. */
  lemma {:induction false} ItemsDetermine(r: Registry, q: Registry)
    requires forall y :: Registered(r, y) <==> Registered(q, y)
    ensures r == q
  {
    forall k | k in r.commands || k in q.commands ensures k in r.commands && k in q.commands && r.commands[k] == q.commands[k] {
      if k in r.commands { assert Registered(r, Cmd(k, r.commands[k])); } else { assert Registered(q, Cmd(k, q.commands[k])); }
    }
    forall k | k in r.groups || k in q.groups ensures k in r.groups && k in q.groups && r.groups[k] == q.groups[k] {
      if k in r.groups { assert Registered(r, Grp(k, r.groups[k])); } else { assert Registered(q, Grp(k, q.groups[k])); }
    }
    assert r.commands == q.commands && r.groups == q.groups;
  }

  /** Any rearrangement of the same items is accepted or refused alike, and builds the same registry. */
  lemma {:induction false} ItemsInAnyOrder(r: Registry, s: seq<Item>, t: seq<Item>)
    requires multiset(s) == multiset(t)
    ensures RunItems(r, s) == RunItems(r, t)
  {
    ItemsSucceedIff(r, s);
    ItemsSucceedIff(r, t);
    assert forall x :: x in s <==> x in t by {
      assert forall x :: x in s <==> x in multiset(s);
      assert forall x :: x in t <==> x in multiset(t);
    }
    if AllCompatible(s) { CompatibleByMultiset(s, t); }
    if AllCompatible(t) { CompatibleByMultiset(t, s); }
    assert CompatibleWith(r, s) <==> CompatibleWith(r, t) by {
      if CompatibleWith(r, s) { SameMembersCompatible(r, s, t); }
      if CompatibleWith(r, t) { SameMembersCompatible(r, t, s); }
    }
    if RunItems(r, s).Some? && RunItems(r, t).Some? {
      ItemsDetermine(RunItems(r, s).value, RunItems(r, t).value);
    }
  }

  lemma {:induction false} SameMembersCompatible(r: Registry, s: seq<Item>, t: seq<Item>)
    requires forall x :: x in s <==> x in t
    requires CompatibleWith(r, s)
    ensures CompatibleWith(r, t)
  {
    forall i | 0 <= i < |t| ensures Compatible(r, t[i]) {
      assert t[i] in s;
    }
  }

  lemma {:induction false} ItemsKeepValid(r: Registry, items: seq<Item>)
    requires Valid(r) && RunItems(r, items).Some?
    ensures Valid(RunItems(r, items).value)
    decreases |items|
  {
    if items != [] {
      AddKeepsValid(r, items[0]);
      ItemsKeepValid(Add(r, items[0]), items[1..]);
    }
  }

  // ------------------------------------------------- the calls a program makes

  /** One call of `register_at` or of `register_group`. */
  datatype Request = CommandRequest(path: Path, c: Command) | GroupRequest(path: Path, g: GroupMetadata)

  function ItemOf(q: Request): Item {
    match q
    case CommandRequest(p, c) => Cmd(Join(p), c)
    case GroupRequest(p, g) => Grp(Join(p), g)
  }

  function ItemsOf(qs: seq<Request>): seq<Item> { seq(|qs|, i requires 0 <= i < |qs| => ItemOf(qs[i])) }

  /** The checks of the source let the call through. */
  ghost predicate Admitted(r: Registry, q: Request) {
    match q
    case CommandRequest(p, c) => CommandAdmitted(r, p, c)
    case GroupRequest(p, _) => GroupAdmitted(r, p)
  }

  /** Every path went through `CommandPath::new`. */
  predicate PathsOk(qs: seq<Request>) { forall i :: 0 <= i < |qs| ==> PathOk(qs[i].path) }

  /** The registry after a list of calls, each checked as the source checks it; `None` as soon as one is refused. */
  ghost function Run(r: Registry, qs: seq<Request>): Option<Registry>
    decreases |qs|
  {
    if qs == [] then Some(r)
    else if Admitted(r, qs[0]) then Run(Add(r, ItemOf(qs[0])), qs[1..])
    else None
  }

  lemma {:induction false} AdmittedIffCompatible(r: Registry, q: Request)
    requires PathOk(q.path)
    ensures Admitted(r, q) <==> Compatible(r, ItemOf(q))
  {
    match q {
      case CommandRequest(p, c) => CommandAdmittedIffCompatible(r, p, c);
      case GroupRequest(p, g) => GroupAdmittedIffCompatible(r, p, g);
    }
  }

  /** The source's checks, call after call, add exactly the items that do not conflict. */
  lemma {:induction false} RunAddsItems(r: Registry, qs: seq<Request>)
    requires PathsOk(qs)
    ensures Run(r, qs) == RunItems(r, ItemsOf(qs))
    decreases |qs|
  {
    if qs != [] {
      hide Admitted, Compatible;
      AdmittedIffCompatible(r, qs[0]);
      assert ItemsOf(qs)[1..] == ItemsOf(qs[1..]);
      RunAddsItems(Add(r, ItemOf(qs[0])), qs[1..]);
    }
  }

  /** All calls are accepted exactly when no item conflicts with the registry or another one, and then all are registered. */
  lemma {:induction false} RunSucceedsIff(r: Registry, qs: seq<Request>)
    requires PathsOk(qs)
    ensures Run(r, qs).Some? <==> AllCompatible(ItemsOf(qs)) && CompatibleWith(r, ItemsOf(qs))
    ensures Run(r, qs).Some? ==>
            forall y :: Registered(Run(r, qs).value, y) <==> Registered(r, y) || y in ItemsOf(qs)
  {
    RunAddsItems(r, qs);
    ItemsSucceedIff(r, ItemsOf(qs));
  }

  /** Calls made in any other order are accepted or refused alike, and build the same registry. */
  lemma {:induction false} OrderIndependent(r: Registry, qs: seq<Request>, ps: seq<Request>)
    requires PathsOk(qs) && multiset(qs) == multiset(ps)
    ensures Run(r, qs) == Run(r, ps)
  {
    forall i | 0 <= i < |ps| ensures PathOk(ps[i].path) {
      assert ps[i] in multiset(qs);
    }
    ItemsPermute(qs, ps);
    RunAddsItems(r, qs);
    RunAddsItems(r, ps);
    ItemsInAnyOrder(r, ItemsOf(qs), ItemsOf(ps));
  }

  function Single(): Request -> seq<Item> { q => [ItemOf(q)] }

  lemma {:induction false} ItemsFlatMap(qs: seq<Request>)
    ensures ItemsOf(qs) == FlatMap(qs, Single())
  {
    if qs != [] {
      var before := qs[..|qs| - 1];
      ItemsFlatMap(before);
      assert ItemsOf(qs) == ItemsOf(before) + [ItemOf(qs[|qs| - 1])];
    }
  }

  lemma {:induction false} ItemsPermute(qs: seq<Request>, ps: seq<Request>)
    requires multiset(qs) == multiset(ps)
    ensures multiset(ItemsOf(qs)) == multiset(ItemsOf(ps))
  {
    ItemsFlatMap(qs);
    ItemsFlatMap(ps);
    FlatMapPermute(qs, ps, Single());
  }

  lemma {:induction false} RunKeepsValid(r: Registry, qs: seq<Request>)
    requires Valid(r) && PathsOk(qs) && Run(r, qs).Some?
    ensures Valid(Run(r, qs).value)
  {
    RunAddsItems(r, qs);
    ItemsKeepValid(r, ItemsOf(qs));
  }

  // ---------------------------------------------------------------- the namespace

  function Names(x: Item): set<string> { {x.key} + Aliases(x) }

  /** Every canonical or alias path belongs to at most one command, whatever the aliases look like. */
  lemma {:induction false} NamesHaveOneOwner(r: Registry, x: Item, y: Item, n: string)
    requires Valid(r) && Registered(r, x) && Registered(r, y)
    requires n in Names(x) && n in Names(y)
    ensures x == y
  {
    if x != y {
      assert !Conflict(x, y);
      assert n in Aliases(x) && n in Aliases(y) ==> n in Aliases(x) * Aliases(y);
      assert AtOrAbove(n, n);
    }
  }

  /** Visible or hidden, a command's alias is neither the path nor a visible or hidden alias of another command. */
  lemma {:induction false} AliasesHaveOneOwner(r: Registry, k: string, l: string, a: string)
    requires Valid(r) && k in r.commands && l in r.commands && k != l
    requires a in r.commands[k].aliases || a in r.commands[k].hiddenAliases
    ensures AliasKey(k, a) != l
    ensures forall b :: b in r.commands[l].aliases || b in r.commands[l].hiddenAliases ==> AliasKey(l, b) != AliasKey(k, a)
  {
    var x, y, n := Cmd(k, r.commands[k]), Cmd(l, r.commands[l]), AliasKey(k, a);
    assert n in Names(x);
    if n == l { NamesHaveOneOwner(r, x, y, n); }
    forall b | b in r.commands[l].aliases || b in r.commands[l].hiddenAliases ensures AliasKey(l, b) != n {
      if AliasKey(l, b) == n {
        assert n in Names(y);
        NamesHaveOneOwner(r, x, y, n);
      }
    }
  }

  /** Two calls whose commands qualify to a common alias, in either of their lists, are never both accepted. */
  lemma {:induction false} SharedAliasRefused(r: Registry, qs: seq<Request>, i: nat, j: nat, a: string, b: string)
    requires PathsOk(qs) && i < j < |qs| && qs[i].CommandRequest? && qs[j].CommandRequest?
    requires a in qs[i].c.aliases || a in qs[i].c.hiddenAliases
    requires b in qs[j].c.aliases || b in qs[j].c.hiddenAliases
    requires QualifiedAlias(qs[i].path, a) == QualifiedAlias(qs[j].path, b)
    ensures Run(r, qs).None?
  {
    RunSucceedsIff(r, qs);
    AliasKeyOfPath(qs[i].path, a);
    AliasKeyOfPath(qs[j].path, b);
    var x, y, n := ItemOf(qs[i]), ItemOf(qs[j]), QualifiedAlias(qs[i].path, a);
    assert n in Aliases(x) && n in Aliases(y) && n in Aliases(x) * Aliases(y);
    assert ItemsOf(qs)[i] == x && ItemsOf(qs)[j] == y && Conflict(x, y);
  }

  /** Some name of one is at or above a name of the other; a group is only ever the lower one. */
  ghost predicate Overlap(x: Item, y: Item) {
    exists n, m :: Clash(x, n, y, m)
  }

  predicate Clash(x: Item, n: string, y: Item, m: string) {
    n in Names(x) && m in Names(y) && (n == m || (x.Cmd? && Above(n, m)) || (y.Cmd? && Above(m, n)))
  }

  /** No name of a command is, or is a path prefix of, a name of another command or of a group. */
  ghost predicate PrefixFree(r: Registry) {
    forall x, y :: Registered(r, x) && Registered(r, y) && x != y ==> !Overlap(x, y)
  }

  /** A plain command at `n` could not be registered beside `x`. */
  predicate Guards(x: Item, n: string) {
    AtOrAbove(n, x.key) || Above(x.key, n) || exists b :: b in Aliases(x) && AtOrAbove(b, n)
  }

  /** Every path above an alias of `x` is guarded by `x` itself. */
  ghost predicate InScope(x: Item) {
    forall a, n :: a in Aliases(x) && Above(n, a) ==> Guards(x, n)
  }

  /** Aliases without a slash, the ones that sit beside their command, are always in scope. */
  lemma {:induction false} RelativeAliasesInScope(k: string, c: Command)
    requires forall a :: a in AllAliases(c) ==> '/' !in a
    ensures InScope(Cmd(k, c))
  {
    var x := Cmd(k, c);
    forall a, n | a in Aliases(x) && Above(n, a) ensures Guards(x, n) {
      var alias :| alias in AllAliases(c) && a == AliasKey(k, alias);
      SiblingAncestors(k, alias, n);
    }
  }

  /** A command's key above another command's alias is a conflict. */
  lemma {:induction false} KeyAboveAlias(x: Item, y: Item, a: string)
    requires x.Cmd? && InScope(y) && a in Aliases(y) && AtOrAbove(x.key, a)
    ensures Conflict(x, y)
  {
    if x.key == a {
      assert AtOrAbove(a, x.key);
    } else {
      assert Guards(y, x.key);
    }
  }

  /** So is an alias above an alias: the shorter one is in turn guarded, and the descent ends. */
  lemma {:induction false} AliasAboveAlias(x: Item, y: Item, a: string, b: string)
    requires InScope(x) && InScope(y) && a in Aliases(x) && b in Aliases(y) && AtOrAbove(a, b)
    ensures Conflict(x, y)
    decreases |a| + |b|
  {
    if a == b {
      assert a in Aliases(x) * Aliases(y);
    } else {
      assert Guards(y, a);
      if AtOrAbove(a, y.key) {
        assert Shadows(x, y);
      } else if Above(y.key, a) {
        KeyAboveAlias(y, x, a);
      } else {
        var d :| d in Aliases(y) && AtOrAbove(d, a);
        AliasAboveAlias(y, x, d, a);
      }
      ConflictSymmetric(x, y);
    }
  }

  lemma {:induction false} OrderedNamesConflict(x: Item, y: Item, n: string, m: string)
    requires InScope(x) && InScope(y) && x.Cmd? && n in Names(x) && m in Names(y) && AtOrAbove(n, m)
    ensures Conflict(x, y)
  {
    if m == y.key {
      assert Covers(x, y) || Shadows(x, y);
    } else if n == x.key {
      KeyAboveAlias(x, y, m);
    } else {
      AliasAboveAlias(x, y, n, m);
    }
  }

  /** For items in scope the registry's checks are exactly the overlap of their names. */
  lemma {:induction false} ConflictIsOverlap(x: Item, y: Item)
    requires InScope(x) && InScope(y)
    ensures Conflict(x, y) <==> Overlap(x, y)
  {
    if n, m :| Clash(x, n, y, m) {
      ConflictSymmetric(x, y);
      if x.Cmd? && AtOrAbove(n, m) {
        OrderedNamesConflict(x, y, n, m);
      } else if y.Cmd? {
        OrderedNamesConflict(y, x, m, n);
      }
    }
    if Conflict(x, y) {
      ConflictOverlaps(x, y);
    }
  }

  lemma {:induction false} ConflictOverlaps(x: Item, y: Item)
    requires Conflict(x, y)
    ensures Overlap(x, y)
  {
    if x.key == y.key || Covers(x, y) || Covers(y, x) {
      assert Clash(x, x.key, y, y.key);
    } else if Shadows(x, y) {
      var a :| a in Aliases(x) && AtOrAbove(a, y.key);
      assert Clash(x, a, y, y.key);
    } else if Shadows(y, x) {
      var a :| a in Aliases(y) && AtOrAbove(a, x.key);
      assert Clash(x, x.key, y, a);
    } else {
      var a :| a in Aliases(x) * Aliases(y);
      assert Clash(x, a, y, a);
    }
  }

  /**
   * After any accepted calls, in any order, whose items are in scope the names form a prefix-free set,
   * and a further call with an item in scope is accepted exactly when the names would stay prefix-free.
   */
  lemma {:induction false} NamespaceIsPrefixFree(qs: seq<Request>, q: Request)
    requires PathsOk(qs) && PathOk(q.path) && Run(EMPTY, qs).Some?
    requires InScope(ItemOf(q)) && forall i :: 0 <= i < |qs| ==> InScope(ItemOf(qs[i]))
    ensures PrefixFree(Run(EMPTY, qs).value)
    ensures Admitted(Run(EMPTY, qs).value, q)
            <==> forall y :: Registered(Run(EMPTY, qs).value, y) ==> !Overlap(ItemOf(q), y)
  {
    var r, x := Run(EMPTY, qs).value, ItemOf(q);
    RunKeepsValid(EMPTY, qs);
    RunSucceedsIff(EMPTY, qs);
    AdmittedIffCompatible(r, q);
    hide Admitted, Run;
    forall y | Registered(r, y) ensures InScope(y) { assert y in ItemsOf(qs); }
    forall y, z | Registered(r, y) && Registered(r, z) && y != z ensures !Overlap(y, z) { ConflictIsOverlap(y, z); }
    forall y | Registered(r, y) ensures Conflict(x, y) <==> Overlap(x, y) { ConflictIsOverlap(x, y); }
  }

  function Plain(): Command { Command("", "", [], [], false, None, None, {}, false, None, None, 0) }

  lemma {:induction false} OneIsValid(k: string, c: Command)
    ensures Valid(Registry(map[k := c], map[]))
  {
  }

  lemma {:induction false} PairIsValid(k: string, c: Command, g: string, m: GroupMetadata)
    requires !Conflict(Cmd(k, c), Grp(g, m))
    ensures Valid(Registry(map[k := c], map[g := m]))
  {
    hide Conflict;
    ConflictSymmetric(Cmd(k, c), Grp(g, m));
    assert forall z :: Registered(Registry(map[k := c], map[g := m]), z) ==> z == Cmd(k, c) || z == Grp(g, m);
  }

  /** Out of scope means unsafe: a plain command can be registered first, above an alias of `c`, and `c` is still accepted. */
  lemma {:induction false} OutOfScopeBreaksPrefixFree(p: Path, c: Command) returns (first: Request)
    requires PathOk(p) && !InScope(Cmd(Join(p), c))
    ensures PathOk(first.path) && Run(EMPTY, [first, CommandRequest(p, c)]).Some?
    ensures !PrefixFree(Run(EMPTY, [first, CommandRequest(p, c)]).value)
  {
    var x := Cmd(Join(p), c);
    var a, n :| a in Aliases(x) && Above(n, a) && !Guards(x, n);
    first := CommandRequest(Split(n), Plain());
    var y := Cmd(n, Plain());
    assert Aliases(y) == {};
    assert !Conflict(y, x);
    assert Clash(y, n, x, a);
    assert Overlap(y, x);
    assert ItemsOf([first, CommandRequest(p, c)]) == [y, x];
    RunSucceedsIff(EMPTY, [first, CommandRequest(p, c)]);
    assert y in [y, x] && x in [y, x];
    ConflictSymmetric(y, y);
  }

  /** Such a command: "c", with the alias "x/y" that nothing keeps a command "x" away from. */
  lemma {:induction false} SlashAliasOutOfScope()
    ensures var c := Plain().(aliases := ["x/y"]); !InScope(Cmd(Join(["c"]), c))
  {
    var c := Plain().(aliases := ["x/y"]);
    var x := Cmd("c", c);
    assert '/' in "x/y" by { assert "x/y"[1] == '/'; }
    assert "x/y" in AllAliases(c) && AliasKey("c", "x/y") == "x/y";
    assert "x/y" in Aliases(x) && Above("x", "x/y");
    assert forall b :: b in Aliases(x) ==> b == "x/y";
    assert !AtOrAbove("x/y", "x") && !AtOrAbove("x", "c") && !Above("c", "x");
    assert !Guards(x, "x");
  }

  // ------------------------------------------------------------ root-level ids

  /**
   * The flat `register` makes the id a single segment without checking it for slashes, so the ancestor
   * checks are skipped. On a valid registry the result is valid exactly when the id, split into its
   * segments, would have been accepted too; an id without a slash always is.
   */
  lemma {:induction false} FlatRegister(r: Registry, id: string, c: Command)
    requires Valid(r) && CommandAdmitted(r, [id], c)
    ensures Valid(Add(r, Cmd(id, c))) <==> CommandAdmitted(r, Split(id), c)
    ensures '/' !in id ==> Valid(Add(r, Cmd(id, c)))
  {
    var x := Cmd(id, c);
    CommandAdmittedIffCompatible(r, Split(id), c);
    if Compatible(r, x) {
      AddKeepsValid(r, x);
    } else {
      var y :| Registered(r, y) && Conflict(x, y);
      assert y.key != id;
      assert Registered(Add(r, x), x) && Registered(Add(r, x), y);
    }
    if '/' !in id { assert Split(id) == [id]; }
  }

  /** Such an id: "a" is a command, and "a/b" is let in below it. */
  lemma {:induction false} FlatRegisterLetsADescendantIn()
    ensures var r := Add(EMPTY, Cmd("a", Plain()));
            Valid(r) && CommandAdmitted(r, ["a/b"], Plain()) && !Valid(Add(r, Cmd("a/b", Plain())))
  {
    var r := Add(EMPTY, Cmd("a", Plain()));
    assert forall y :: Registered(r, y) ==> y == Cmd("a", Plain());
    assert Join(["a/b"]) == "a/b" && Ancestors(["a/b"]) == {};
    assert !Above("a/b", "a");
    var x, y := Cmd("a", Plain()), Cmd("a/b", Plain());
    assert Above("a", "a/b") && Covers(x, y);
    assert Registered(Add(r, y), x) && Registered(Add(r, y), y);
  }
}
