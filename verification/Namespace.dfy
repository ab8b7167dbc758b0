/** The names a command registry hands out: src/command/registry.rs, on values. */
module Namespace {
  import opened Wrappers
  import opened PathKeys

  datatype Command = Command(
    id: string,
    summary: string,
    aliases: seq<string>,
    hiddenAliases: seq<string>,
    hidden: bool,
    category: Option<string>,
    helpOrder: Option<nat>,
    flags: set<string>,
    exposeMcp: bool,
    meta: Option<string>,
    visibility: Option<seq<string>>,
    body: nat)

  datatype GroupMetadata = GroupMetadata(summary: string, hidden: bool, category: Option<string>, helpOrder: Option<nat>)

  datatype Registry = Registry(commands: map<string, Command>, groups: map<string, GroupMetadata>)

  const EMPTY := Registry(map[], map[])

  /** The visible and the hidden aliases, chained: hidden ones take their place in the namespace like any other. */
  function AllAliases(c: Command): (all: seq<string>)
    ensures forall a :: a in all <==> a in c.aliases || a in c.hiddenAliases
  {
    c.aliases + c.hiddenAliases
  }

  /** `qualified_alias_path`: an alias with a slash is taken literally, any other sits beside the command. */
  function QualifiedAlias(p: Path, alias: string): string {
    if '/' in alias then alias else Sibling(p, alias)
  }

  function AliasKey(key: string, alias: string): string { QualifiedAlias(Split(key), alias) }

  function AliasKeys(key: string, c: Command): set<string> {
    set a | a in AllAliases(c) :: AliasKey(key, a)
  }

  // ------------------------------------------------ the checks as the source makes them

  predicate HasDescendants(r: Registry, k: string) {
    (exists e :: e in r.commands && Above(k, e)) || (exists g :: g in r.groups && Above(k, g))
  }

  /** Some registered command has an alias that qualifies to `k`. */
  predicate Aliased(r: Registry, k: string) {
    exists e :: e in r.commands && k in AliasKeys(e, r.commands[e])
  }

  /** `register_at` accepts. The path may be any list of strings: the source does not re-check its segments. */
  ghost predicate CommandAdmitted(r: Registry, p: Path, c: Command) {
    && PathFree(r, p)
    && !HasDescendants(r, Join(p))
    && forall a :: a in AllAliases(c) ==> AliasFree(r, QualifiedAlias(p, a))
  }

  /** Neither the path nor anything above it is a command or an alias, and the path itself is no group. */
  predicate PathFree(r: Registry, p: Path) {
    var k := Join(p);
    && k !in r.commands && k !in r.groups && !Aliased(r, k)
    && forall a :: a in Ancestors(p) ==> a !in r.commands && !Aliased(r, a)
  }

  predicate AliasFree(r: Registry, a: string) {
    a !in r.commands && a !in r.groups && !HasDescendants(r, a) && !Aliased(r, a)
  }

  /** `register_group` accepts. */
  ghost predicate GroupAdmitted(r: Registry, p: Path) { PathFree(r, p) }

  // ------------------------------------------------------------ pairwise conflicts

  /** One registration, by the key it asks for. */
  datatype Item = Cmd(key: string, c: Command) | Grp(key: string, g: GroupMetadata)

  function Aliases(x: Item): set<string> {
    match x
    case Cmd(k, c) => AliasKeys(k, c)
    case Grp(_, _) => {}
  }

  /** `a` is `k` or above it. */
  predicate AtOrAbove(a: string, k: string) { a == k || Above(a, k) }

  /** Some alias of `x` is at or above the key of `y`. */
  predicate Shadows(x: Item, y: Item) {
    exists a :: a in Aliases(x) && AtOrAbove(a, y.key)
  }

  /** A command takes its key and everything below it. */
  predicate Covers(x: Item, y: Item) { x.Cmd? && AtOrAbove(x.key, y.key) }

  predicate Conflict(x: Item, y: Item) {
    x.key == y.key || Covers(x, y) || Covers(y, x) || Shadows(x, y) || Shadows(y, x) || Aliases(x) * Aliases(y) != {}
  }

  lemma {:induction false} ConflictSymmetric(x: Item, y: Item)
    ensures Conflict(x, y) == Conflict(y, x) && Conflict(x, x)
  {
  }

  ghost predicate Registered(r: Registry, x: Item) {
    match x
    case Cmd(k, c) => k in r.commands && r.commands[k] == c
    case Grp(k, g) => k in r.groups && r.groups[k] == g
  }

  ghost predicate Compatible(r: Registry, x: Item) {
    forall y :: Registered(r, y) ==> !Conflict(x, y)
  }

  function Add(r: Registry, x: Item): Registry {
    match x
    case Cmd(k, c) => r.(commands := r.commands[k := c])
    case Grp(k, g) => r.(groups := r.groups[k := g])
  }


  /** On a well-formed path a relative alias is where the stored key says it is. */
  lemma {:induction false} AliasKeyOfPath(p: Path, a: string)
    requires PathOk(p)
    ensures QualifiedAlias(p, a) == AliasKey(Join(p), a)
  {
    if p != [] { SplitJoin(p); }
  }

  lemma {:induction false} AliasedIsShadowed(r: Registry, k: string)
    ensures Aliased(r, k) <==> exists y :: Registered(r, y) && k in Aliases(y)
  {
    if Aliased(r, k) {
      var e :| e in r.commands && k in AliasKeys(e, r.commands[e]);
      assert Registered(r, Cmd(e, r.commands[e])) && k in Aliases(Cmd(e, r.commands[e]));
    }
    if exists y :: Registered(r, y) && k in Aliases(y) {
      var y :| Registered(r, y) && k in Aliases(y);
      assert y.key in r.commands && k in AliasKeys(y.key, r.commands[y.key]);
    }
  }

  /** The path check, seen from the registered items. */
  lemma {:induction false} PathFreeMeans(r: Registry, p: Path)
    requires PathOk(p)
    ensures PathFree(r, p) <==>
            forall y :: Registered(r, y) ==>
              y.key != Join(p) && !(y.Cmd? && Above(y.key, Join(p))) && forall a :: a in Aliases(y) ==> !AtOrAbove(a, Join(p))
  {
    var k := Join(p);
    forall a ensures a in Ancestors(p) <==> Above(a, k) { AncestorsAreAbove(p, a); }
    forall a ensures Aliased(r, a) <==> exists y :: Registered(r, y) && a in Aliases(y) { AliasedIsShadowed(r, a); }
    if PathFree(r, p) {
      forall y | Registered(r, y)
        ensures y.key != k && !(y.Cmd? && Above(y.key, k)) && forall a :: a in Aliases(y) ==> !AtOrAbove(a, k)
      {
        forall a | a in Aliases(y) ensures !AtOrAbove(a, k) { assert Aliased(r, a); }
      }
    } else if k in r.commands {
      assert Registered(r, Cmd(k, r.commands[k]));
    } else if k in r.groups {
      assert Registered(r, Grp(k, r.groups[k]));
    } else if Aliased(r, k) {
    } else {
      var a :| a in Ancestors(p) && (a in r.commands || Aliased(r, a));
      if a in r.commands { assert Registered(r, Cmd(a, r.commands[a])); }
    }
  }

  lemma {:induction false} DescendantsMean(r: Registry, k: string)
    ensures HasDescendants(r, k) <==> exists y :: Registered(r, y) && Above(k, y.key)
  {
    if e :| e in r.commands && Above(k, e) {
      assert Registered(r, Cmd(e, r.commands[e]));
    } else if g :| g in r.groups && Above(k, g) {
      assert Registered(r, Grp(g, r.groups[g]));
    }
  }

  lemma {:induction false} AliasFreeMeans(r: Registry, a: string)
    ensures AliasFree(r, a) <==> forall y :: Registered(r, y) ==> !AtOrAbove(a, y.key) && a !in Aliases(y)
  {
    DescendantsMean(r, a);
    AliasedIsShadowed(r, a);
    if a in r.commands { assert Registered(r, Cmd(a, r.commands[a])); }
    if a in r.groups { assert Registered(r, Grp(a, r.groups[a])); }
  }

  /** The long list of checks in `register_at` is one symmetric relation, asked of every registered item. */
  lemma {:induction false} CommandAdmittedIffCompatible(r: Registry, p: Path, c: Command)
    requires PathOk(p)
    ensures CommandAdmitted(r, p, c) <==> Compatible(r, Cmd(Join(p), c))
  {
    var k, x := Join(p), Cmd(Join(p), c);
    PathFreeMeans(r, p);
    DescendantsMean(r, k);
    forall a ensures QualifiedAlias(p, a) == AliasKey(k, a) { AliasKeyOfPath(p, a); }
    forall a ensures AliasFree(r, a) <==> forall y :: Registered(r, y) ==> !AtOrAbove(a, y.key) && a !in Aliases(y) {
      AliasFreeMeans(r, a);
    }
    if CommandAdmitted(r, p, c) {
      forall y | Registered(r, y) ensures !Conflict(x, y) {
        forall a | a in Aliases(x) ensures !AtOrAbove(a, y.key) && a !in Aliases(y) { assert AliasFree(r, a); }
      }
    }
    if Compatible(r, x) {
      CompatibleMeansAdmitted(r, p, c);
    }
  }

  lemma {:induction false} CompatibleMeansAdmitted(r: Registry, p: Path, c: Command)
    requires PathOk(p) && Compatible(r, Cmd(Join(p), c))
    ensures CommandAdmitted(r, p, c)
  {
    var k, x := Join(p), Cmd(Join(p), c);
    forall y | Registered(r, y)
      ensures y.key != k && !Covers(y, x) && !Covers(x, y) && !Shadows(x, y) && !Shadows(y, x) && Aliases(x) * Aliases(y) == {}
    {
      assert !Conflict(x, y);
    }
    PathFreeMeans(r, p);
    DescendantsMean(r, k);
    forall alias | alias in AllAliases(c) ensures AliasFree(r, QualifiedAlias(p, alias)) {
      AliasKeyOfPath(p, alias);
      var a := AliasKey(k, alias);
      assert a in Aliases(x);
      forall y | Registered(r, y) ensures !AtOrAbove(a, y.key) && a !in Aliases(y) {
        assert a in Aliases(y) ==> a in Aliases(x) * Aliases(y);
      }
      AliasFreeMeans(r, a);
    }
  }

  lemma {:induction false} GroupAdmittedIffCompatible(r: Registry, p: Path, g: GroupMetadata)
    requires PathOk(p)
    ensures GroupAdmitted(r, p) <==> Compatible(r, Grp(Join(p), g))
  {
    PathFreeMeans(r, p);
    var x := Grp(Join(p), g);
    if GroupAdmitted(r, p) {
      forall y | Registered(r, y) ensures !Conflict(x, y) { }
    } else {
      var y :| Registered(r, y) && !(y.key != Join(p) && !(y.Cmd? && Above(y.key, Join(p))) && forall a :: a in Aliases(y) ==> !AtOrAbove(a, Join(p)));
      assert Conflict(x, y);
    }
  }
}
