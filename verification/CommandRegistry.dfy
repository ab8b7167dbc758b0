/** `CommandRegistry` of src/command/registry.rs: two maps that registrations update in place. */
module CommandRegistry {
  import opened Wrappers
  import opened PathKeys
  import opened Namespace
  import Registration

  datatype RegistrationError = Collision(path: string) | AliasConflict(alias: string, existing: string)

  /** The key itself is taken: by a command or group, by a command above, or by anything below. */
  ghost predicate Collides(r: Registry, p: Path) {
    Join(p) in r.commands || Join(p) in r.groups || HasDescendants(r, Join(p))
    || exists a :: a in Ancestors(p) && a in r.commands
  }

  /** The alias an error names is real: it is registered and claims the path, or it is new and its place is taken. */
  ghost predicate Blames(r: Registry, p: Path, c: Command, e: RegistrationError) {
    match e
    case Collision(path) => path == Join(p) && Collides(r, p)
    case AliasConflict(alias, existing) =>
      || (existing in r.commands && alias in AllAliases(r.commands[existing])
          && (AliasKey(existing, alias) == Join(p) || AliasKey(existing, alias) in Ancestors(p)))
      || (alias in AllAliases(c) && !AliasFree(r, QualifiedAlias(p, alias))
          && (existing == QualifiedAlias(p, alias)
              || (existing in r.commands && QualifiedAlias(p, alias) in AliasKeys(existing, r.commands[existing]))))
  }

  /** A group is refused for its own path only: for what is there or a command above, then for an alias. */
  ghost predicate BlamesGroup(r: Registry, p: Path, e: RegistrationError) {
    match e
    case Collision(path) =>
      path == Join(p) && (Join(p) in r.commands || Join(p) in r.groups || exists a :: a in Ancestors(p) && a in r.commands)
    case AliasConflict(alias, existing) =>
      existing in r.commands && alias in AllAliases(r.commands[existing])
      && (AliasKey(existing, alias) == Join(p) || AliasKey(existing, alias) in Ancestors(p))
      && Join(p) !in r.commands && Join(p) !in r.groups && forall a :: a in Ancestors(p) ==> a !in r.commands
  }

  /** A direct child of `p` with a name. */
  predicate ChildOf(p: Path, q: Path) { |q| == |p| + 1 && q[..|p|] == p && q[|p|] != "" }

  function ChildrenIn(p: Path, keys: set<string>): set<Path> {
    set k | k in keys && ChildOf(p, Split(k)) :: Split(k)
  }

  lemma {:induction false} ChildrenGrow(p: Path, keys: set<string>, k: string)
    ensures ChildrenIn(p, keys + {k}) == ChildrenIn(p, keys) + if ChildOf(p, Split(k)) then {Split(k)} else {}
  {
  }

  /** What the prefix test of `list_children` finds, in segments. */
  lemma {:induction false} ChildKey(p: Path, k: string)
    requires PathOk(p)
    ensures var prefix := if p == [] then "" else Join(p) + "/";
            ChildOf(p, Split(k)) <==>
            prefix <= k && '/' !in k[|prefix|..] && k[|prefix|..] != ""
    ensures var prefix := if p == [] then "" else Join(p) + "/";
            ChildOf(p, Split(k)) ==> Split(k) == p + [k[|prefix|..]]
  {
    if p == [] { RootChild(k); } else { ChildKeyBelow(p, k); }
  }

  lemma {:induction false} RootChild(k: string)
    ensures ChildOf([], Split(k)) <==> '/' !in k && k != ""
    ensures ChildOf([], Split(k)) ==> Split(k) == [k]
  {
    if '/' !in k { assert Split(k) == [k]; }
    if |Split(k)| == 1 { assert k == Split(k)[0]; }
  }

  lemma {:induction false} ChildKeyBelow(p: Path, k: string)
    requires PathOk(p) && p != []
    ensures var prefix := Join(p) + "/";
            ChildOf(p, Split(k)) <==> prefix <= k && '/' !in k[|prefix|..] && k[|prefix|..] != ""
    ensures var prefix := Join(p) + "/";
            ChildOf(p, Split(k)) ==> Split(k) == p + [k[|prefix|..]]
  {
    AboveIsProperPrefix(p, Split(k));
    if ProperPrefix(p, Split(k)) { BelowKey(p, Split(k)); }
  }

  lemma {:induction false} BelowKey(p: Path, q: Path)
    requires PathOk(p) && PathOk(q) && p != [] && ProperPrefix(p, q)
    ensures var prefix, k := Join(p) + "/", Join(q);
            && prefix <= k
            && (ChildOf(p, q) <==> '/' !in k[|prefix|..] && k[|prefix|..] != "")
            && (ChildOf(p, q) ==> q == p + [k[|prefix|..]])
  {
    hide Join;
    var rest, prefix := q[|p|..], Join(p) + "/";
    assert q == p + rest;
    assert PathOk(rest);
    JoinAppend(p, rest);
    assert (prefix + Join(rest))[|prefix|..] == Join(rest);
    RestIsOne(rest);
    assert |rest| == 1 ==> rest == [q[|p|]];
  }

  /** A joined path has no slash exactly when it has one segment. */
  lemma {:induction false} RestIsOne(rest: Path)
    requires PathOk(rest) && rest != []
    ensures '/' !in Join(rest) <==> |rest| == 1
    ensures |rest| == 1 ==> Join(rest) == rest[0]
  {
    if |rest| >= 2 { JoinHasSlash(rest); }
  }

  lemma {:induction false} JoinAppend(p: Path, q: Path)
    requires p != [] && q != []
    ensures Join(p + q) == Join(p) + "/" + Join(q)
  {
    if |p| == 1 {
      assert (p + q)[1..] == q;
    } else {
      assert (p + q)[1..] == p[1..] + q;
      JoinAppend(p[1..], q);
    }
  }

  class CommandRegistry {
    var commands: map<string, Command>
    var groups: map<string, GroupMetadata>

    ghost function View(): Registry
      reads this
    {
      Registry(commands, groups)
    }

    constructor ()
      ensures View() == EMPTY && Registration.Valid(View())
    {
      commands, groups := map[], map[];
    }

    /** `ancestor` is a command, and no shorter prefix of the path is one. */
    ghost predicate ShortestAncestor(path: Path, n: int, ancestor: string)
      reads this
    {
      1 <= n < |path| && ancestor == Join(path[..n]) && ancestor in commands
      && forall m :: 1 <= m < n ==> Join(path[..m]) !in commands
    }

    /** The shortest registered proper prefix of a path. */
    method CommandAncestor(path: Path) returns (found: Option<string>)
      ensures found.Some? ==> exists n :: ShortestAncestor(path, n, found.value)
      ensures found.None? ==> forall a :: a in Ancestors(path) ==> a !in commands
    {
      var len := 1;
      while len < |path|
        invariant 1 <= len && (|path| > 0 ==> len <= |path|)
        invariant forall n :: 1 <= n < len && n < |path| ==> Join(path[..n]) !in commands
      {
        var ancestor := Join(path[..len]);
        if ancestor in commands {
          assert ShortestAncestor(path, len, ancestor);
          return Some(ancestor);
        }
        len := len + 1;
      }
      return None;
    }

    method PathHasDescendants(path: string) returns (found: bool)
      ensures found == HasDescendants(View(), path)
    {
      var left := commands.Keys;
      while left != {}
        invariant left <= commands.Keys
        invariant forall k :: k in commands && k !in left ==> !Above(path, k)
        decreases left
      {
        var k :| k in left;
        if Above(path, k) { return true; }
        left := left - {k};
      }
      left := groups.Keys;
      while left != {}
        invariant left <= groups.Keys
        invariant forall k :: k in groups && k !in left ==> !Above(path, k)
        decreases left
      {
        var k :| k in left;
        if Above(path, k) { return true; }
        left := left - {k};
      }
      return false;
    }

    /** Some command with an alias at `candidate`, looked for in the map's own arbitrary order. */
    method ExistingAliasForPath(candidate: string) returns (found: Option<(string, string)>)
      ensures found.Some? ==> found.value.1 in commands && found.value.0 in AllAliases(commands[found.value.1])
                              && AliasKey(found.value.1, found.value.0) == candidate
      ensures found.None? <==> !Aliased(View(), candidate)
    {
      var left := commands.Keys;
      while left != {}
        invariant left <= commands.Keys
        invariant forall k :: k in commands && k !in left ==> candidate !in AliasKeys(k, commands[k])
        decreases left
      {
        var k :| k in left;
        var aliases := AllAliases(commands[k]);
        for i := 0 to |aliases|
          invariant forall j :: 0 <= j < i ==> AliasKey(k, aliases[j]) != candidate
        {
          if AliasKey(k, aliases[i]) == candidate {
            assert candidate in AliasKeys(k, commands[k]);
            return Some((aliases[i], k));
          }
        }
        left := left - {k};
      }
      return None;
    }

    method ExistingAliasAncestor(path: Path) returns (found: Option<(string, string)>)
      ensures found.Some? ==> found.value.1 in commands && found.value.0 in AllAliases(commands[found.value.1])
                              && AliasKey(found.value.1, found.value.0) in Ancestors(path)
      ensures found.None? <==> forall a :: a in Ancestors(path) ==> !Aliased(View(), a)
    {
      var len := 1;
      while len < |path|
        invariant 1 <= len && (|path| > 0 ==> len <= |path|)
        invariant forall n :: 1 <= n < len && n < |path| ==> !Aliased(View(), Join(path[..n]))
      {
        found := ExistingAliasForPath(Join(path[..len]));
        if found.Some? { assert Join(path[..len]) in Ancestors(path); return; }
        len := len + 1;
      }
      return None;
    }

    /** The checks an alias of a new command has to pass; `existing` is what is in its way. */
    method AliasObstacle(path: Path, alias: string) returns (existing: Option<string>)
      ensures existing.None? <==> AliasFree(View(), QualifiedAlias(path, alias))
      ensures existing.Some? ==>
                existing.value == QualifiedAlias(path, alias)
                || (existing.value in commands && QualifiedAlias(path, alias) in AliasKeys(existing.value, commands[existing.value]))
    {
      var place := QualifiedAlias(path, alias);
      if place in commands || place in groups { return Some(place); }
      var below := PathHasDescendants(place);
      if below { return Some(place); }
      var other := ExistingAliasForPath(place);
      if other.Some? { return Some(other.value.1); }
      return None;
    }

    /** Accepts exactly the admitted commands; a refusal names a real obstacle and changes nothing. */
    method RegisterAt(path: Path, command: Command) returns (r: Result<(), RegistrationError>)
      modifies this
      ensures r.Ok? <==> CommandAdmitted(old(View()), path, command)
      ensures View() == if r.Ok? then Add(old(View()), Cmd(Join(path), command)) else old(View())
      ensures r.Err? ==> Blames(old(View()), path, command, r.error)
      ensures r.Err? && r.error.AliasConflict? ==> !Collides(old(View()), path)
      ensures PathOk(path) && Registration.Valid(old(View())) ==> Registration.Valid(View())
    {
      ghost var before := View();
      var key := Join(path);
      var ancestor := CommandAncestor(path);
      var below := PathHasDescendants(key);
      if key in commands || key in groups || ancestor.Some? || below { return Err(Collision(key)); }
      var owner := ExistingAliasForPath(key);
      if owner.Some? { return Err(AliasConflict(owner.value.0, owner.value.1)); }
      owner := ExistingAliasAncestor(path);
      if owner.Some? { return Err(AliasConflict(owner.value.0, owner.value.1)); }
      var aliases := AllAliases(command);
      for i := 0 to |aliases|
        invariant View() == before
        invariant forall j :: 0 <= j < i ==> AliasFree(before, QualifiedAlias(path, aliases[j]))
      {
        var existing := AliasObstacle(path, aliases[i]);
        if existing.Some? { return Err(AliasConflict(aliases[i], existing.value)); }
      }
      commands := commands[key := command];
      if PathOk(path) && Registration.Valid(before) {
        CommandAdmittedIffCompatible(before, path, command);
        Registration.AddKeepsValid(before, Cmd(key, command));
      }
      return Ok(());
    }

    method RegisterGroup(path: Path, metadata: GroupMetadata) returns (r: Result<(), RegistrationError>)
      modifies this
      ensures r.Ok? <==> GroupAdmitted(old(View()), path)
      ensures View() == if r.Ok? then Add(old(View()), Grp(Join(path), metadata)) else old(View())
      ensures r.Err? ==> BlamesGroup(old(View()), path, r.error)
      ensures PathOk(path) && Registration.Valid(old(View())) ==> Registration.Valid(View())
    {
      ghost var before := View();
      var key := Join(path);
      var ancestor := CommandAncestor(path);
      if key in commands || key in groups || ancestor.Some? { return Err(Collision(key)); }
      var owner := ExistingAliasForPath(key);
      if owner.Some? { return Err(AliasConflict(owner.value.0, owner.value.1)); }
      owner := ExistingAliasAncestor(path);
      if owner.Some? { return Err(AliasConflict(owner.value.0, owner.value.1)); }
      groups := groups[key := metadata];
      if PathOk(path) && Registration.Valid(before) {
        GroupAdmittedIffCompatible(before, path, metadata);
        Registration.AddKeepsValid(before, Grp(key, metadata));
      }
      return Ok(());
    }

    /** A list of calls as a program makes them, up to the first refusal. */
    method RegisterAll(requests: seq<Registration.Request>) returns (ok: bool)
      modifies this
      ensures ok <==> Registration.Run(old(View()), requests).Some?
      ensures ok ==> Registration.Run(old(View()), requests) == Some(View())
      ensures Registration.PathsOk(requests) && Registration.Valid(old(View())) ==> Registration.Valid(View())
    {
      hide Registration.Valid, CommandAdmitted, GroupAdmitted;
      ghost var whole := Registration.Run(View(), requests);
      assert requests[0..] == requests;
      for i := 0 to |requests|
        invariant Registration.Run(View(), requests[i..]) == whole
        invariant Registration.PathsOk(requests) && Registration.Valid(old(View())) ==> Registration.Valid(View())
      {
        assert requests[i..][1..] == requests[i + 1..];
        var r;
        match requests[i] {
          case CommandRequest(path, command) => r := RegisterAt(path, command);
          case GroupRequest(path, metadata) => r := RegisterGroup(path, metadata);
        }
        if r.Err? { return false; }
      }
      ok := true;
    }

    /** On a well-formed path: the command whose key splits into that path, and nothing when there is none. */
    method Resolve(path: Path) returns (found: Option<Command>)
      ensures PathOk(path) && path != [] ==> (found.Some? <==> exists k :: k in commands && Split(k) == path)
      ensures forall k :: k in commands && Split(k) == path ==> found == Some(commands[k])
      ensures found == if Join(path) in commands then Some(commands[Join(path)]) else None
    {
      var key := Join(path);
      found := if key in commands then Some(commands[key]) else None;
      if PathOk(path) && path != [] { SplitJoin(path); }
    }

    /** The direct children of a path, in segments. */
    method ListChildren(path: Path) returns (children: set<Path>)
      requires PathOk(path)
      ensures children == ChildrenIn(path, commands.Keys)
    {
      var prefix := if path == [] then "" else Join(path) + "/";
      children := {};
      var left := commands.Keys;
      while left != {}
        invariant left <= commands.Keys && children == ChildrenIn(path, commands.Keys - left)
        decreases left
      {
        hide ChildrenIn, ChildOf, Join, Split;
        var k :| k in left;
        ChildKey(path, k);
        ChildrenGrow(path, commands.Keys - left, k);
        assert commands.Keys - (left - {k}) == commands.Keys - left + {k};
        if prefix <= k && '/' !in k[|prefix|..] && k[|prefix|..] != "" {
          children := children + {path + [k[|prefix|..]]};
        }
        left := left - {k};
      }
    }
  }
}
