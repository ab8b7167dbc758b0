/** src/environment.rs: the environment variables an application declares. */
module Environment {
  import opened Wrappers

  datatype Entry = Entry(name: string, description: string)

  datatype EnvError =
    | EmptyName
    | EmptyDescription(name: string)
    | ConflictingDescription(name: string, existing: string, incoming: string)

  type Entries = map<string, string>

  /** Unicode White_Space, which `str::trim` strips. */
  predicate WhiteSpace(c: char) {
    var u := c as int;
    || 0x09 <= u <= 0x0D || u == 0x20 || u == 0x85 || u == 0xA0 || u == 0x1680 || 0x2000 <= u <= 0x200A
    || u == 0x2028 || u == 0x2029 || u == 0x202F || u == 0x205F || u == 0x3000
  }

  /** `s.trim().is_empty()`. */
  predicate Blank(s: string) { forall i :: 0 <= i < |s| ==> WhiteSpace(s[i]) }

  /** Nothing, spaces, tabs and line ends are blank, and so are the spaces of other scripts; a letter is not. */
  lemma {:induction false} BlankShown()
    ensures Blank("") && Blank(" \t\r\n") && Blank("\U{A0}\U{2003}\U{3000}") && !Blank(" a ")
  {
    assert " a "[1] == 'a';
  }

  // ------------------------------------------------------------- on values

  /** What one `insert` answers. */
  function Answer(entries: Entries, e: Entry, rejectConflict: bool): Result<bool, EnvError> {
    if Blank(e.name) then Err(EmptyName)
    else if Blank(e.description) then Err(EmptyDescription(e.name))
    else if e.name !in entries then Ok(true)
    else if rejectConflict && entries[e.name] != e.description then
      Err(ConflictingDescription(e.name, entries[e.name], e.description))
    else Ok(false)
  }

  function After(entries: Entries, e: Entry, rejectConflict: bool): Entries {
    if Answer(entries, e, rejectConflict) == Ok(true) then entries[e.name := e.description] else entries
  }

  /** Nothing that was there is gone or described otherwise. */
  ghost predicate Kept(before: Entries, now: Entries) {
    forall n :: n in before ==> n in now && now[n] == before[n]
  }

  lemma {:induction false} AfterKeeps(before: Entries, now: Entries, e: Entry, rejectConflict: bool)
    requires Kept(before, now)
    ensures Kept(before, After(now, e, rejectConflict))
  {
  }

  /** The entries a run of `register` calls leaves, stopping at the first error. */
  function Collected(entries: Entries, declared: seq<Entry>): Result<Entries, EnvError>
    decreases |declared|
  {
    if declared == [] then Ok(entries)
    else match Answer(entries, declared[0], true)
      case Err(e) => Err(e)
      case Ok(_) => Collected(After(entries, declared[0], true), declared[1..])
  }

  // --------------------------------------------------------- the registry object

  class EnvironmentVariableRegistry {
    var entries: Entries

    constructor ()
      ensures entries == map[]
    {
      entries := map[];
    }

    method Insert(name: string, description: string, rejectConflict: bool) returns (r: Result<bool, EnvError>)
      modifies this
      ensures r == Answer(old(entries), Entry(name, description), rejectConflict)
      ensures entries == After(old(entries), Entry(name, description), rejectConflict)
    {
      if Blank(name) { return Err(EmptyName); }
      if Blank(description) { return Err(EmptyDescription(name)); }
      if name in entries {
        var existing := entries[name];
        if rejectConflict && existing != description {
          return Err(ConflictingDescription(name, existing, description));
        }
        return Ok(false);
      }
      entries := entries[name := description];
      r := Ok(true);
    }

    method Register(e: Entry) returns (r: Result<bool, EnvError>)
      modifies this
      ensures r == Answer(old(entries), e, true)
      ensures entries == After(old(entries), e, true)
    {
      r := Insert(e.name, e.description, true);
    }

    /** Never displaces an entry and never reports a conflict. */
    method RegisterIfAbsent(name: string, description: string) returns (r: Result<bool, EnvError>)
      modifies this
      ensures Kept(old(entries), entries)
      ensures r.Ok? <==> !Blank(name) && !Blank(description)
      ensures r.Ok? ==> name in entries && (r.value <==> name !in old(entries))
      ensures r == Ok(true) ==> entries == old(entries)[name := description]
      ensures r != Ok(true) ==> entries == old(entries)
      ensures r.Err? ==> !r.error.ConflictingDescription?
    {
      r := Insert(name, description, false);
    }

    /** `register_commands`, for one order of the command table. */
    method RegisterCommands(envVars: map<string, seq<Entry>>, order: seq<string>) returns (r: Result<(), EnvError>)
      requires forall k :: k in order ==> k in envVars
      modifies this
      ensures match Collected(old(entries), Declared(envVars, order))
              case Ok(all) => r == Ok(()) && entries == all
              case Err(e) => r == Err(e) && Kept(old(entries), entries)
    {
      assert Kept(entries, entries);
      hide Answer, After, Kept;
      ghost var all := Declared(envVars, order);
      ghost var whole := Collected(entries, all);
      ghost var seen := 0;
      assert all[0..] == all;
      for i := 0 to |order|
        invariant seen <= |all| && all[seen..] == Declared(envVars, order[i..])
        invariant Collected(entries, all[seen..]) == whole
        invariant Kept(old(entries), entries)
      {
        assert order[i] in order && order[i..][1..] == order[i + 1..];
        var vars := envVars[order[i]];
        ghost var rest := Declared(envVars, order[i + 1..]);
        assert all[seen..] == vars + rest;
        for j := 0 to |vars|
          invariant seen + |vars| - j + |rest| == |all| && all[seen..] == vars[j..] + rest
          invariant Collected(entries, all[seen..]) == whole
          invariant Kept(old(entries), entries)
        {
          assert all[seen..][0] == vars[j] && all[seen..][1..] == all[seen + 1..];
          assert (vars[j..] + rest)[1..] == vars[j + 1..] + rest;
          AfterKeeps(old(entries), entries, vars[j], true);
          var answer := Register(vars[j]);
          if answer.Err? { return Err(answer.error); }
          seen := seen + 1;
        }
        assert all[seen..] == rest;
      }
      r := Ok(());
    }
  }

  // --------------------------------------------------------------- when it succeeds

  function Declared(envVars: map<string, seq<Entry>>, order: seq<string>): seq<Entry>
    requires forall k :: k in order ==> k in envVars
  {
    if order == [] then []
    else assert order[0] in order; envVars[order[0]] + Declared(envVars, order[1..])
  }

  predicate Proper(e: Entry) { !Blank(e.name) && !Blank(e.description) }

  /** Nobody describes a name in two ways, neither among the declarations nor against what is there. */
  ghost predicate Consistent(entries: Entries, declared: set<Entry>) {
    && (forall d :: d in declared ==> Proper(d) && (d.name in entries ==> entries[d.name] == d.description))
    && (forall d, e :: d in declared && e in declared && d.name == e.name ==> d.description == e.description)
  }

  /** `all` is `entries` with the declarations added, and nothing else. */
  ghost predicate Union(entries: Entries, declared: set<Entry>, all: Entries) {
    && (forall n :: n in all <==> n in entries || exists d :: d in declared && d.name == n)
    && (forall n :: n in entries ==> n in all && all[n] == entries[n])
    && (forall d :: d in declared ==> d.name in all && all[d.name] == d.description)
  }

  function SetOf(declared: seq<Entry>): set<Entry> { set d | d in declared }

  lemma {:induction false} SetOfStep(declared: seq<Entry>)
    requires declared != []
    ensures SetOf(declared) == {declared[0]} + SetOf(declared[1..])
  {
    assert declared == [declared[0]] + declared[1..];
  }

  lemma {:induction false} ConsistentStep(entries: Entries, d: Entry, rest: set<Entry>)
    requires Answer(entries, d, true).Ok?
    ensures Consistent(entries, {d} + rest) <==> Consistent(After(entries, d, true), rest)
  {
    var more := After(entries, d, true);
    assert more[d.name] == d.description;
    if Consistent(more, rest) {
      forall e | e in rest ensures Proper(e) && (e.name in entries ==> entries[e.name] == e.description) {
        assert e.name in entries ==> more[e.name] == entries[e.name];
      }
      forall e | e in rest && e.name == d.name ensures e.description == d.description { }
    }
    if Consistent(entries, {d} + rest) {
      forall e | e in rest ensures e.name in more ==> more[e.name] == e.description {
        assert e in {d} + rest && d in {d} + rest;
      }
    }
  }

  lemma {:induction false} UnionStep(entries: Entries, d: Entry, rest: set<Entry>, all: Entries)
    requires Answer(entries, d, true).Ok? && Union(After(entries, d, true), rest, all)
    ensures Union(entries, {d} + rest, all)
  {
    var more := After(entries, d, true);
    assert d.name in more && more[d.name] == d.description;
    forall n ensures n in all <==> n in entries || exists e :: e in {d} + rest && e.name == n {
      if n in all && n !in entries {
        if n in more { assert d in {d} + rest && d.name == n; }
        else { var e :| e in rest && e.name == n; assert e in {d} + rest; }
      }
    }
  }

  /** Collecting succeeds exactly on proper, consistent declarations, and then adds exactly them. */
  lemma {:induction false} CollectsIff(entries: Entries, declared: seq<Entry>)
    ensures Collected(entries, declared).Ok? <==> Consistent(entries, SetOf(declared))
    ensures Collected(entries, declared).Ok? ==> Union(entries, SetOf(declared), Collected(entries, declared).value)
    decreases |declared|
  {
    if declared != [] {
      var d, rest := declared[0], SetOf(declared[1..]);
      SetOfStep(declared);
      if Answer(entries, d, true).Ok? {
        CollectsIff(After(entries, d, true), declared[1..]);
        ConsistentStep(entries, d, rest);
        if Collected(entries, declared).Ok? { UnionStep(entries, d, rest, Collected(entries, declared).value); }
      } else {
        assert d in SetOf(declared);
      }
    }
  }

  /** What a refusal says is so: of a declaration, or of a declaration against an earlier one or an entry. */
  ghost predicate Blames(entries: Entries, declared: seq<Entry>, e: EnvError) {
    match e
    case EmptyName => exists d :: d in declared && Blank(d.name)
    case EmptyDescription(n) => !Blank(n) && exists d :: d in declared && d.name == n && Blank(d.description)
    case ConflictingDescription(n, existing, incoming) =>
      && existing != incoming && Entry(n, incoming) in declared
      && (if n in entries then entries[n] == existing else Entry(n, existing) in declared)
  }

  lemma {:induction false} RefusalsBlame(entries: Entries, declared: seq<Entry>, e: EnvError)
    requires Collected(entries, declared) == Err(e)
    ensures Blames(entries, declared, e)
    decreases |declared|
  {
    var d := declared[0];
    assert d in declared && forall x :: x in declared[1..] ==> x in declared;
    if Answer(entries, d, true).Err? {
      assert e.ConflictingDescription? ==> Entry(e.name, e.incoming) == d;
    } else {
      RefusalsBlame(After(entries, d, true), declared[1..], e);
      assert d == Entry(d.name, d.description);
    }
  }

  lemma {:induction false} UnionUnique(entries: Entries, declared: set<Entry>, a: Entries, b: Entries)
    requires Union(entries, declared, a) && Union(entries, declared, b)
    ensures a == b
  {
    assert a.Keys == b.Keys;
    forall n | n in a ensures a[n] == b[n] {
      if n !in entries { var d :| d in declared && d.name == n; }
    }
  }

  /** Any two lists with the same declarations, repeated or permuted as may be, are accepted alike with one result. */
  lemma {:induction false} OrderDoesNotMatter(entries: Entries, a: seq<Entry>, b: seq<Entry>)
    requires SetOf(a) == SetOf(b)
    ensures Collected(entries, a).Ok? <==> Collected(entries, b).Ok?
    ensures Collected(entries, a).Ok? ==> Collected(entries, a) == Collected(entries, b)
  {
    CollectsIff(entries, a);
    CollectsIff(entries, b);
    if Collected(entries, a).Ok? {
      UnionUnique(entries, SetOf(a), Collected(entries, a).value, Collected(entries, b).value);
    }
  }

  lemma {:induction false} DeclaredBy(envVars: map<string, seq<Entry>>, order: seq<string>, d: Entry)
    requires forall k :: k in order ==> k in envVars
    ensures d in Declared(envVars, order) <==> exists k :: k in order && d in envVars[k]
  {
    if order != [] {
      assert order[0] in order;
      DeclaredBy(envVars, order[1..], d);
      if d in envVars[order[0]] { assert order[0] in order && d in envVars[order[0]]; }
      if k :| k in order && d in envVars[k] { assert k == order[0] || k in order[1..]; }
      if k :| k in order[1..] && d in envVars[k] { assert k in order; }
    }
  }

  /** The order in which the command table is walked does not show. */
  lemma {:induction false} TableOrderDoesNotMatter(entries: Entries, envVars: map<string, seq<Entry>>, o: seq<string>, p: seq<string>)
    requires forall k :: k in o <==> k in envVars
    requires forall k :: k in p <==> k in envVars
    ensures var a, b := Collected(entries, Declared(envVars, o)), Collected(entries, Declared(envVars, p));
            (a.Ok? <==> b.Ok?) && (a.Ok? ==> a == b)
  {
    var a, b := Declared(envVars, o), Declared(envVars, p);
    forall d ensures d in a <==> d in b {
      DeclaredBy(envVars, o, d);
      DeclaredBy(envVars, p, d);
      if k :| k in o && d in envVars[k] { assert k in p; }
      if k :| k in p && d in envVars[k] { assert k in o; }
    }
    assert SetOf(a) == SetOf(b);
    OrderDoesNotMatter(entries, a, b);
  }

  /** Which error is reported does depend on the order. */
  lemma {:induction false} ErrorDependsOnOrder()
    ensures Collected(map[], [Entry("", "x"), Entry("A", "")]) == Err(EmptyName)
    ensures Collected(map[], [Entry("A", ""), Entry("", "x")]) == Err(EmptyDescription("A"))
  {
    assert "A"[0] == 'A';
  }

  /** The framework's own declarations: a run of `register_if_absent`, whose errors the caller may ignore or not. */
  function WithFramework(entries: Entries, declared: seq<Entry>): Entries
    decreases |declared|
  {
    if declared == [] then entries else WithFramework(After(entries, declared[0], false), declared[1..])
  }

  /** They change no entry the application made, and a name they add has its first proper description. */
  lemma {:induction false} FrameworkKeepsEntries(entries: Entries, declared: seq<Entry>, n: string)
    ensures n in entries ==> n in WithFramework(entries, declared) && WithFramework(entries, declared)[n] == entries[n]
    ensures n !in entries && n in WithFramework(entries, declared) ==>
              exists i :: FirstProper(declared, n, i) && WithFramework(entries, declared)[n] == declared[i].description
    decreases |declared|
  {
    if declared != [] {
      var d, rest := declared[0], declared[1..];
      FrameworkKeepsEntries(After(entries, d, false), rest, n);
      if n !in entries && n in WithFramework(entries, declared) {
        if n in After(entries, d, false) {
          assert FirstProper(declared, n, 0);
        } else {
          var i :| FirstProper(rest, n, i) && WithFramework(entries, declared)[n] == rest[i].description;
          FirstProperShifts(declared, n, i);
        }
      }
    }
  }

  ghost predicate FirstProper(declared: seq<Entry>, n: string, i: int) {
    && 0 <= i < |declared| && declared[i].name == n && Proper(declared[i])
    && forall j :: 0 <= j < i ==> !(declared[j].name == n && Proper(declared[j]))
  }

  lemma {:induction false} FirstProperShifts(declared: seq<Entry>, n: string, i: int)
    requires declared != [] && FirstProper(declared[1..], n, i) && !(declared[0].name == n && Proper(declared[0]))
    ensures FirstProper(declared, n, i + 1)
  {
    forall j | 0 <= j < i + 1 ensures !(declared[j].name == n && Proper(declared[j])) {
      assert j > 0 ==> declared[1..][j - 1] == declared[j];
    }
  }
}
