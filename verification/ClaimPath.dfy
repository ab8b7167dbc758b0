/** cli-framework-oidc/src/claim_path.rs: dot-separated claim paths with `\.` and `\\` escapes. */
module ClaimPath {
  import opened Wrappers
  import opened JsonValues

  datatype PathError = EmptyPath | EmptyKey | UnsupportedEscape(c: char) | TrailingBackslash

  type Parsed = Result<seq<string>, PathError>

  /** What a parsed path holds: at least one key, none empty. */
  predicate GoodKeys(keys: seq<string>) { keys != [] && AllNonEmpty(keys) }

  predicate AllNonEmpty(keys: seq<string>) { forall i :: 0 <= i < |keys| ==> keys[i] != "" }

  // ---------------------------------------------------------------- the printer

  function EscapeChar(c: char): string { if c == '.' || c == '\\' then ['\\', c] else [c] }

  function Escape(key: string): string {
    if key == "" then "" else EscapeChar(key[0]) + Escape(key[1..])
  }

  /** Finished keys, each with its separator. */
  function PrintFinished(keys: seq<string>): string {
    if keys == [] then "" else Escape(keys[0]) + "." + PrintFinished(keys[1..])
  }

  /** The text read when `keys` are finished and `current` has been started. */
  function PrintSoFar(keys: seq<string>, current: string): string { PrintFinished(keys) + Escape(current) }

  function Print(keys: seq<string>): string
    requires keys != []
  {
    PrintSoFar(keys[..|keys| - 1], keys[|keys| - 1])
  }

  // ----------------------------------------------------------------- the parser

  /** What is left to read, after `keys` and a started `current`. */
  function ParseRest(rest: string, keys: seq<string>, current: string): Parsed {
    if rest == "" then
      if current == "" then Err(EmptyKey) else Ok(keys + [current])
    else if rest[0] == '\\' then
      if |rest| == 1 then Err(TrailingBackslash)
      else if rest[1] == '.' || rest[1] == '\\' then ParseRest(rest[2..], keys, current + [rest[1]])
      else Err(UnsupportedEscape(rest[1]))
    else if rest[0] == '.' then
      if current == "" then Err(EmptyKey) else ParseRest(rest[1..], keys + [current], "")
    else ParseRest(rest[1..], keys, current + [rest[0]])
  }

  function ParseSpec(raw: string): Parsed { if raw == "" then Err(EmptyPath) else ParseRest(raw, [], "") }

  /** `ClaimPath::parse`. */
  method Parse(raw: string) returns (r: Parsed)
    ensures r == ParseSpec(raw)
    ensures r.Ok? ==> GoodKeys(r.value) && Print(r.value) == raw
  {
    ghost var whole := ParseSpec(raw);
    if raw == "" { return Err(EmptyPath); }
    AcceptedPrintsBack(raw);
    var keys: seq<string>, current: string := [], "";
    var i := 0;
    assert raw[0..] == raw;
    while i < |raw|
      invariant 0 <= i <= |raw|
      invariant ParseRest(raw[i..], keys, current) == whole
      decreases |raw| - i
    {
      var c := raw[i];
      i := i + 1;
      if c == '\\' {
        if i == |raw| { return Err(TrailingBackslash); }
        var other := raw[i];
        i := i + 1;
        assert raw[i - 2..][2..] == raw[i..];
        if other == '.' { current := current + ['.']; }
        else if other == '\\' { current := current + ['\\']; }
        else { return Err(UnsupportedEscape(other)); }
      } else {
        assert raw[i - 1..][1..] == raw[i..];
        if c == '.' {
          if current == "" { return Err(EmptyKey); }
          keys, current := keys + [current], "";
        } else {
          current := current + [c];
        }
      }
    }
    if current == "" { return Err(EmptyKey); }
    r := Ok(keys + [current]);
  }

  // ------------------------------------------------------- reading what was printed

  lemma {:induction false} ReadsPlain(c: char, rest: string, keys: seq<string>, current: string)
    requires c != '.' && c != '\\'
    ensures ParseRest([c] + rest, keys, current) == ParseRest(rest, keys, current + [c])
  {
    assert ([c] + rest)[1..] == rest;
  }

  lemma {:induction false} ReadsEscape(c: char, rest: string, keys: seq<string>, current: string)
    requires c == '.' || c == '\\'
    ensures ParseRest(['\\', c] + rest, keys, current) == ParseRest(rest, keys, current + [c])
  {
    assert (['\\', c] + rest)[2..] == rest;
  }

  lemma {:induction false} ReadsEscaped(key: string, rest: string, keys: seq<string>, current: string)
    ensures ParseRest(Escape(key) + rest, keys, current) == ParseRest(rest, keys, current + key)
  {
    if key == "" {
      assert Escape(key) + rest == rest && current + key == current;
    } else {
      var c, tail := key[0], Escape(key[1..]) + rest;
      assert Escape(key) + rest == EscapeChar(c) + tail;
      hide ParseRest, Escape;
      if c == '.' || c == '\\' { ReadsEscape(c, tail, keys, current); } else { ReadsPlain(c, tail, keys, current); }
      ReadsEscaped(key[1..], rest, keys, current + [c]);
      assert current + [c] + key[1..] == current + key;
    }
  }

  lemma {:induction false} ReadsDot(key: string, tail: string, keys: seq<string>)
    requires key != ""
    ensures ParseRest("." + tail, keys, key) == ParseRest(tail, keys + [key], "")
  {
    assert ("." + tail)[1..] == tail;
  }

  lemma {:induction false} ReadsFinished(more: seq<string>, rest: string, keys: seq<string>)
    requires AllNonEmpty(more)
    ensures ParseRest(PrintFinished(more) + rest, keys, "") == ParseRest(rest, keys + more, "")
  {
    hide ParseRest, Escape;
    if more == [] {
      assert PrintFinished(more) + rest == rest && keys + more == keys;
    } else {
      var tail := PrintFinished(more[1..]) + rest;
      assert PrintFinished(more) + rest == Escape(more[0]) + ("." + tail);
      ReadsEscaped(more[0], "." + tail, keys, "");
      assert "" + more[0] == more[0];
      ReadsDot(more[0], tail, keys);
      ReadsFinished(more[1..], rest, keys + [more[0]]);
      assert keys + [more[0]] + more[1..] == keys + more;
    }
  }

  /** After any clean start the parser stands where the printer stopped. */
  lemma {:induction false} ReadsSoFar(keys: seq<string>, current: string, rest: string)
    requires AllNonEmpty(keys)
    ensures ParseRest(PrintSoFar(keys, current) + rest, [], "") == ParseRest(rest, keys, current)
  {
    assert PrintSoFar(keys, current) + rest == PrintFinished(keys) + (Escape(current) + rest);
    ReadsFinished(keys, Escape(current) + rest, []);
    ReadsEscaped(current, rest, keys, "");
    assert [] + keys == keys && "" + current == current;
  }

  /** Parsing undoes printing, for every list of keys a path can have. */
  lemma {:induction false} ParseAfterPrint(keys: seq<string>)
    requires GoodKeys(keys)
    ensures ParseSpec(Print(keys)) == Ok(keys)
  {
    var before, last := keys[..|keys| - 1], keys[|keys| - 1];
    ReadsSoFar(before, last, "");
    assert Print(keys) + "" == Print(keys) && before + [last] == keys;
    assert Escape(last) != "";
  }

  // --------------------------------------------------------- printing what was read

  lemma {:induction false} EscapeConcat(a: string, b: string)
    ensures Escape(a + b) == Escape(a) + Escape(b)
  {
    if a == "" {
      assert a + b == b;
    } else {
      assert (a + b)[1..] == a[1..] + b;
      EscapeConcat(a[1..], b);
    }
  }

  lemma {:induction false} FinishedGrows(keys: seq<string>, key: string)
    ensures PrintFinished(keys + [key]) == PrintFinished(keys) + Escape(key) + "."
  {
    if keys == [] {
      assert [key][1..] == [];
    } else {
      assert (keys + [key])[1..] == keys[1..] + [key];
      FinishedGrows(keys[1..], key);
    }
  }

  lemma {:induction false} CurrentGrows(keys: seq<string>, current: string, c: char)
    ensures PrintSoFar(keys, current + [c]) == PrintSoFar(keys, current) + EscapeChar(c)
  {
    EscapeConcat(current, [c]);
    assert Escape([c]) == EscapeChar(c);
  }

  /** Where the parser stops: at the end with the keys read, or in front of an obstacle. */
  ghost predicate Stops(rest: string, current: string, e: PathError) {
    match e
    case EmptyPath => false
    case EmptyKey => current == "" && (rest == "" || rest[0] == '.')
    case UnsupportedEscape(c) => |rest| >= 2 && rest[0] == '\\' && rest[1] == c && c != '.' && c != '\\'
    case TrailingBackslash => rest == "\\"
  }

  /** `raw` is a clean start followed by the obstacle. */
  ghost predicate FailsAfter(raw: string, keys: seq<string>, current: string, rest: string, e: PathError) {
    AllNonEmpty(keys) && raw == PrintSoFar(keys, current) + rest && Stops(rest, current, e)
  }

  ghost predicate Explained(raw: string, r: Parsed) {
    match r
    case Ok(keys) => GoodKeys(keys) && Print(keys) == raw
    case Err(e) => exists keys, current, rest :: FailsAfter(raw, keys, current, rest, e)
  }

  lemma {:induction false} ResultExplained(raw: string, rest: string, keys: seq<string>, current: string)
    requires AllNonEmpty(keys) && raw == PrintSoFar(keys, current) + rest
    ensures Explained(raw, ParseRest(rest, keys, current))
    decreases |rest|
  {
    hide PrintFinished;
    if rest == "" {
      assert current == "" ==> FailsAfter(raw, keys, current, rest, EmptyKey);
      var all := keys + [current];
      assert all[..|all| - 1] == keys && raw == PrintSoFar(keys, current);
    } else if rest[0] == '\\' {
      if |rest| == 1 {
        assert FailsAfter(raw, keys, current, rest, TrailingBackslash);
      } else if rest[1] == '.' || rest[1] == '\\' {
        CurrentGrows(keys, current, rest[1]);
        assert rest == EscapeChar(rest[1]) + rest[2..];
        ResultExplained(raw, rest[2..], keys, current + [rest[1]]);
      } else {
        assert FailsAfter(raw, keys, current, rest, UnsupportedEscape(rest[1]));
      }
    } else if rest[0] == '.' {
      if current == "" {
        assert FailsAfter(raw, keys, current, rest, EmptyKey);
      } else {
        FinishedGrows(keys, current);
        assert rest == "." + rest[1..];
        ResultExplained(raw, rest[1..], keys + [current], "");
      }
    } else {
      CurrentGrows(keys, current, rest[0]);
      assert rest == EscapeChar(rest[0]) + rest[1..];
      ResultExplained(raw, rest[1..], keys, current + [rest[0]]);
    }
  }

  lemma {:induction false} AcceptedPrintsBack(raw: string)
    requires raw != ""
    ensures Explained(raw, ParseRest(raw, [], ""))
  {
    assert PrintSoFar([], "") + raw == raw;
    ResultExplained(raw, raw, [], "");
  }

  /** Accepted strings and lists of non-empty keys are in bijection: printing and parsing are inverse both ways. */
  lemma {:induction false} ParsesIffPrinted(raw: string, keys: seq<string>)
    ensures ParseSpec(raw) == Ok(keys) <==> GoodKeys(keys) && Print(keys) == raw
  {
    if GoodKeys(keys) && Print(keys) == raw { ParseAfterPrint(keys); }
    if raw != "" { AcceptedPrintsBack(raw); }
  }

  /** Each error is reported exactly when its obstacle is the first one met. */
  lemma {:induction false} FailsIffObstacle(raw: string, e: PathError)
    requires raw != ""
    ensures ParseSpec(raw) == Err(e) <==> exists keys, current, rest :: FailsAfter(raw, keys, current, rest, e)
  {
    AcceptedPrintsBack(raw);
    if keys, current, rest :| FailsAfter(raw, keys, current, rest, e) {
      ReadsSoFar(keys, current, rest);
    }
  }

  // --------------------------------------------------------------------- reading claims

  function Step(node: Json, key: string): Option<Json> {
    if node.Object? && key in node.fields then Some(node.fields[key]) else None
  }

  /** The value at the end of a list of keys. */
  function At(claims: Json, keys: seq<string>): Option<Json> {
    if keys == [] then Some(claims)
    else match Step(claims, keys[0])
      case None => None
      case Some(next) => At(next, keys[1..])
  }

  function IfString(v: Json): seq<string> { if v.Str? then [v.s] else [] }

  function OnlyStrings(items: seq<Json>): seq<string> {
    if items == [] then [] else IfString(items[0]) + OnlyStrings(items[1..])
  }

  function StringsIn(v: Option<Json>): seq<string> {
    match v
    case Some(Array(items)) => OnlyStrings(items)
    case Some(Str(s)) => [s]
    case _ => []
  }

  /** From object to object: `nodes` starts at the claims, ends at `node`, and each is the one before at the next key. */
  ghost predicate Chain(claims: Json, keys: seq<string>, nodes: seq<Json>, node: Json) {
    && |nodes| == |keys| + 1 && nodes[0] == claims && nodes[|keys|] == node
    && forall i :: 0 <= i < |keys| ==> nodes[i].Object? && keys[i] in nodes[i].fields && nodes[i + 1] == nodes[i].fields[keys[i]]
  }

  ghost predicate LeadsTo(claims: Json, keys: seq<string>, node: Json) { exists nodes :: Chain(claims, keys, nodes, node) }

  lemma {:induction false} AtIsWhereKeysLead(claims: Json, keys: seq<string>)
    ensures forall node :: LeadsTo(claims, keys, node) <==> At(claims, keys) == Some(node)
  {
    forall node ensures LeadsTo(claims, keys, node) <==> At(claims, keys) == Some(node) {
      if At(claims, keys) == Some(node) { ChainTo(claims, keys, node); }
      if nodes :| Chain(claims, keys, nodes, node) { ChainEnds(claims, keys, nodes, node); }
    }
  }

  lemma {:induction false} ChainTo(claims: Json, keys: seq<string>, node: Json)
    requires At(claims, keys) == Some(node)
    ensures LeadsTo(claims, keys, node)
  {
    if keys == [] {
      assert Chain(claims, keys, [claims], node);
    } else {
      var next := Step(claims, keys[0]).value;
      ChainTo(next, keys[1..], node);
      var nodes :| Chain(next, keys[1..], nodes, node);
      assert Chain(claims, keys, [claims] + nodes, node);
    }
  }

  lemma {:induction false} ChainEnds(claims: Json, keys: seq<string>, nodes: seq<Json>, node: Json)
    requires Chain(claims, keys, nodes, node)
    ensures At(claims, keys) == Some(node)
    decreases |keys|
  {
    if keys != [] {
      assert nodes[1] == claims.fields[keys[0]];
      assert Chain(nodes[1], keys[1..], nodes[1..], node);
      ChainEnds(nodes[1], keys[1..], nodes[1..], node);
    }
  }

  /** The strings among the first n items. */
  ghost function StringsBefore(items: seq<Json>, n: nat): set<nat>
    requires n <= |items|
  {
    set i: nat | i < n && items[i].Str?
  }

  /** How many strings stand before item n. */
  ghost function Place(items: seq<Json>, n: nat): nat
    requires n <= |items|
  {
    |StringsBefore(items, n)|
  }

  /** `found` is the strings among the first n items and nothing else, each at its place in their order. */
  ghost predicate PickedFrom(items: seq<Json>, n: nat, found: seq<string>)
    requires n <= |items|
  {
    && |found| == Place(items, n)
    && forall i: nat :: i < n && items[i].Str? ==>
         Place(items, i) < |found| && found[Place(items, i)] == items[i].s
  }

  ghost predicate Picked(items: seq<Json>, found: seq<string>) { PickedFrom(items, |items|, found) }

  /** What a value is read as: a string is itself, an array its strings, anything else nothing. */
  ghost predicate ReadsAs(node: Json, found: seq<string>) {
    match node
    case Str(s) => found == [s]
    case Array(items) => Picked(items, found)
    case _ => found == []
  }

  lemma {:induction false} OnlyStringsGrow(items: seq<Json>, last: Json)
    ensures OnlyStrings(items + [last]) == OnlyStrings(items) + IfString(last)
  {
    hide IfString;
    if items == [] {
      assert items + [last] == [last] && [last][1..] == [];
      assert OnlyStrings([last]) == IfString(last) + OnlyStrings([]) == IfString(last);
    } else {
      assert (items + [last])[1..] == items[1..] + [last];
      OnlyStringsGrow(items[1..], last);
    }
  }

  lemma {:induction false} StringsBeforeStep(items: seq<Json>, n: nat)
    requires n < |items|
    ensures StringsBefore(items, n + 1) == StringsBefore(items, n) + if items[n].Str? then {n} else {}
    ensures Place(items, n + 1) == Place(items, n) + if items[n].Str? then 1 else 0
  {
    assert StringsBefore(items, n + 1) == StringsBefore(items, n) + if items[n].Str? then {n} else {};
    assert n !in StringsBefore(items, n);
  }

  lemma {:induction false} PickedSame(items: seq<Json>, n: nat, found: seq<string>)
    requires n < |items| && PickedFrom(items, n, found) && !items[n].Str? && Place(items, n + 1) == Place(items, n)
    ensures PickedFrom(items, n + 1, found)
  {
    hide Place;
  }

  lemma {:induction false} PickedOne(items: seq<Json>, n: nat, found: seq<string>)
    requires n < |items| && PickedFrom(items, n, found) && items[n].Str? && Place(items, n + 1) == Place(items, n) + 1
    ensures PickedFrom(items, n + 1, found + [items[n].s])
  {
    hide Place;
    var more := found + [items[n].s];
    forall i: nat | i < n + 1 && items[i].Str? ensures Place(items, i) < |more| && more[Place(items, i)] == items[i].s {
      if i < n { assert more[Place(items, i)] == found[Place(items, i)]; }
    }
  }

  lemma {:induction false} PickedGrows(items: seq<Json>, n: nat, found: seq<string>)
    requires n < |items| && PickedFrom(items, n, found)
    ensures PickedFrom(items, n + 1, found + IfString(items[n]))
  {
    StringsBeforeStep(items, n);
    hide Place, PickedFrom;
    if items[n].Str? {
      PickedOne(items, n, found);
    } else {
      PickedSame(items, n, found);
      assert found + [] == found;
    }
  }

  lemma {:induction false} PickedSoFar(items: seq<Json>, n: nat)
    requires n <= |items|
    ensures PickedFrom(items, n, OnlyStrings(items[..n]))
  {
    if n == 0 {
      assert StringsBefore(items, 0) == {} && Place(items, 0) == 0;
    } else {
      PickedSoFar(items, n - 1);
      hide OnlyStrings, PickedFrom;
      OnlyStringsGrow(items[..n - 1], items[n - 1]);
      assert items[..n] == items[..n - 1] + [items[n - 1]];
      PickedGrows(items, n - 1, OnlyStrings(items[..n - 1]));
    }
  }

  lemma {:induction false} PicksStrings(items: seq<Json>)
    ensures Picked(items, OnlyStrings(items))
  {
    PickedSoFar(items, |items|);
    assert items[..|items|] == items;
  }

  /** `ClaimPath::strings`. */
  method Strings(keys: seq<string>, claims: Json) returns (found: seq<string>)
    ensures found == StringsIn(At(claims, keys))
    ensures forall node :: LeadsTo(claims, keys, node) ==> ReadsAs(node, found)
    ensures (forall node :: !LeadsTo(claims, keys, node)) ==> found == []
  {
    AtIsWhereKeysLead(claims, keys);
    forall items ensures Picked(items, OnlyStrings(items)) { PicksStrings(items); }
    var node := claims;
    for i := 0 to |keys|
      invariant At(node, keys[i..]) == At(claims, keys)
    {
      assert keys[i..][1..] == keys[i + 1..];
      match Step(node, keys[i]) {
        case Some(next) => node := next;
        case None => return [];
      }
    }
    match node {
      case Array(items) => found := OnlyStrings(items);
      case Str(s) => found := [s];
      case _ => found := [];
    }
  }

  /** Nesting claims under a key and prefixing that key, escaped, to the text of a path cancel out. */
  lemma {:induction false} NestedClaims(key: string, inner: string, fields: map<string, Json>)
    requires key != "" && ParseSpec(inner).Ok? && key in fields
    ensures var path := ParseSpec(Escape(key) + "." + inner);
            path.Ok? && At(Object(fields), path.value) == At(fields[key], ParseSpec(inner).value)
  {
    hide ParseSpec, Print, Escape;
    var keys := ParseSpec(inner).value;
    ParsesIffPrinted(inner, keys);
    var all := [key] + keys;
    PrintCons(key, keys);
    ParseAfterPrint(all);
    assert all[0] == key && all[1..] == keys;
  }

  lemma {:induction false} PrintCons(key: string, keys: seq<string>)
    requires keys != []
    ensures Print([key] + keys) == Escape(key) + "." + Print(keys)
  {
    hide Escape;
    var all, before := [key] + keys, keys[..|keys| - 1];
    assert all[..|all| - 1] == [key] + before && all[|all| - 1] == keys[|keys| - 1];
    assert ([key] + before)[1..] == before;
  }

  /** A dot ends a key unless a backslash stands before it, and two backslashes stand for one. */
  lemma {:induction false} PathsShown()
    ensures ParseSpec("a.b") == Ok(["a", "b"]) && ParseSpec("a\\.b") == Ok(["a.b"]) && ParseSpec("a\\\\b") == Ok(["a\\b"])
  {
    forall rest ensures ParseRest("a" + rest, [], "") == ParseRest(rest, [], "a") {
      ReadsPlain('a', rest, [], "");
      assert "" + ['a'] == "a";
    }
    assert "a" + ".b" == "a.b" && "a" + "\\.b" == "a\\.b" && "a" + "\\\\b" == "a\\\\b";
    EndsWithB();
  }

  lemma {:induction false} EndsWithB()
    ensures ParseRest(".b", [], "a") == Ok(["a", "b"])
    ensures ParseRest("\\.b", [], "a") == Ok(["a.b"]) && ParseRest("\\\\b", [], "a") == Ok(["a\\b"])
  {
    forall keys, current ensures ParseRest("b", keys, current) == Ok(keys + [current + ['b']]) {
      ReadsPlain('b', "", keys, current);
      assert ['b'] + "" == "b";
    }
    hide ParseRest;
    var none: seq<string> := [];
    var b: string := "" + ['b'];
    assert b == "b" && none + ["a"] == ["a"] && ["a"] + [b] == ["a", "b"];
    assert "." + "b" == ".b";
    ReadsDot("a", "b", none);
    ReadsEscape('.', "b", none, "a");
    assert ['\\', '.'] + "b" == "\\.b";
    var dotted: string := "a" + ['.'] + ['b'];
    assert dotted == "a.b" && none + [dotted] == ["a.b"];
    ReadsEscape('\\', "b", none, "a");
    assert ['\\', '\\'] + "b" == "\\\\b";
    var slashed: string := "a" + ['\\'] + ['b'];
    assert slashed == "a\\b" && none + [slashed] == ["a\\b"];
  }
}
