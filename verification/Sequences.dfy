/** Facts about sequences that several modules need: iteration orders, flat maps and stable sorting. */
module Sequences {

  /** An order in which a hash map may give its keys: each once. */
  ghost predicate Enumerates<T(!new)>(order: seq<T>, keys: set<T>) {
    && (forall i, j :: 0 <= i < j < |order| ==> order[i] != order[j])
    && (forall k :: k in order <==> k in keys)
  }

  lemma {:induction false} SomeOrder<T(!new)>(keys: set<T>) returns (order: seq<T>)
    ensures Enumerates(order, keys)
    decreases keys
  {
    if keys == {} { return []; }
    var k :| k in keys;
    var rest := SomeOrder(keys - {k});
    order := rest + [k];
    assert forall i :: 0 <= i < |rest| ==> rest[i] in rest;
  }

  lemma {:induction false} EnumerationOnce<T(!new)>(order: seq<T>, keys: set<T>)
    requires Enumerates(order, keys)
    ensures multiset(order) == multiset(keys)
    decreases |order|
  {
    if order != [] {
      var before, last := order[..|order| - 1], order[|order| - 1];
      assert order == before + [last];
      assert last in order && last in keys;
      assert last !in before;
      EnumerationOnce(before, keys - {last});
      assert multiset(keys) == multiset(keys - {last}) + multiset{last};
    }
  }

  // ------------------------------------------------------------------ flat maps

  function FlatMap<T, U>(s: seq<T>, f: T -> seq<U>): seq<U> {
    if s == [] then [] else FlatMap(s[..|s| - 1], f) + f(s[|s| - 1])
  }

  lemma {:induction false} FlatMapConcat<T, U>(a: seq<T>, b: seq<T>, f: T -> seq<U>)
    ensures FlatMap(a + b, f) == FlatMap(a, f) + FlatMap(b, f)
  {
    if b == [] {
      assert a + b == a;
    } else {
      assert (a + b)[..|a + b| - 1] == a + b[..|b| - 1];
      FlatMapConcat(a, b[..|b| - 1], f);
    }
  }

  lemma {:induction false} FlatMapStep<T, U>(s: seq<T>, n: nat, f: T -> seq<U>)
    requires n < |s|
    ensures FlatMap(s[..n + 1], f) == FlatMap(s[..n], f) + f(s[n])
  {
    assert s[..n + 1][..n] == s[..n];
  }

  lemma {:induction false} FlatMapOne<T, U>(x: T, f: T -> seq<U>)
    ensures FlatMap([x], f) == f(x)
  {
    assert [x][..0] == [];
  }

  lemma {:induction false} FlatMapCons<T, U>(x: T, s: seq<T>, f: T -> seq<U>)
    ensures FlatMap([x] + s, f) == f(x) + FlatMap(s, f)
  {
    FlatMapConcat([x], s, f);
    FlatMapOne(x, f);
  }

  /** Permuting the input only permutes the output. */
  lemma {:induction false} FlatMapPermute<T, U>(a: seq<T>, b: seq<T>, f: T -> seq<U>)
    requires multiset(a) == multiset(b)
    ensures multiset(FlatMap(a, f)) == multiset(FlatMap(b, f))
    decreases |a|
  {
    if a == [] {
      assert |b| == |multiset(b)| == 0;
    } else {
      var before, x := a[..|a| - 1], a[|a| - 1];
      assert a == before + [x];
      assert x in multiset(b);
      var k :| 0 <= k < |b| && b[k] == x;
      var rest := b[..k] + b[k + 1..];
      RemoveAt(b, k);
      assert multiset(before) == multiset(a) - multiset{x} && multiset(rest) == multiset(b) - multiset{x};
      FlatMapPermute(before, rest, f);
      FlatMapSplit(b, k, f);
    }
  }

  lemma {:induction false} RemoveAt<T>(b: seq<T>, k: nat)
    requires k < |b|
    ensures multiset(b) == multiset(b[..k] + b[k + 1..]) + multiset{b[k]}
  {
    assert b == b[..k] + [b[k]] + b[k + 1..];
  }

  lemma {:induction false} FlatMapSplit<T, U>(b: seq<T>, k: nat, f: T -> seq<U>)
    requires k < |b|
    ensures multiset(FlatMap(b, f)) == multiset(FlatMap(b[..k] + b[k + 1..], f)) + multiset(f(b[k]))
  {
    var head, tail := b[..k], b[k + 1..];
    assert b == (head + [b[k]]) + tail;
    FlatMapConcat(head, [b[k]], f);
    FlatMapConcat(head + [b[k]], tail, f);
    FlatMapConcat(head, tail, f);
    FlatMapOne(b[k], f);
  }

  lemma {:induction false} FlatMapHas<T, U>(s: seq<T>, f: T -> seq<U>, y: U)
    ensures y in FlatMap(s, f) <==> exists x :: x in s && y in f(x)
  {
    if s != [] {
      var before, last := s[..|s| - 1], s[|s| - 1];
      assert s == before + [last];
      FlatMapHas(before, f, y);
      if y in f(last) { assert last in s; }
      if x :| x in before && y in f(x) { assert x in s; }
    }
  }

  /** The keys of which something comes. */
  ghost function Having<T(!new), U>(keys: set<T>, f: T -> seq<U>): set<T> { set k | k in keys && f(k) != [] }

  /** Where at most one thing comes of each key, an enumeration gives one for each key that has one. */
  lemma {:induction false} FlatMapCount<T(!new), U>(order: seq<T>, keys: set<T>, f: T -> seq<U>)
    requires Enumerates(order, keys) && forall k :: |f(k)| <= 1
    ensures |FlatMap(order, f)| == |Having(keys, f)|
    decreases |order|
  {
    if order == [] {
      assert keys == {} by { forall k ensures k !in keys { assert k in order <==> k in keys; } }
    } else {
      var before, last := order[..|order| - 1], order[|order| - 1];
      LastOf(order, keys);
      FlatMapCount(before, keys - {last}, f);
      assert Having(keys, f) == Having(keys - {last}, f) + if f(last) != [] then {last} else {};
    }
  }

  lemma {:induction false} LastOf<T(!new)>(order: seq<T>, keys: set<T>)
    requires Enumerates(order, keys) && order != []
    ensures order[|order| - 1] in keys && Enumerates(order[..|order| - 1], keys - {order[|order| - 1]})
  {
    var before, last := order[..|order| - 1], order[|order| - 1];
    assert order == before + [last] && last in order;
  }

  function Then<T, U, V>(f: T -> seq<U>, g: U -> seq<V>): T -> seq<V> { x => FlatMap(f(x), g) }

  lemma {:induction false} FlatMapTwice<T, U, V>(s: seq<T>, f: T -> seq<U>, g: U -> seq<V>)
    ensures FlatMap(FlatMap(s, f), g) == FlatMap(s, Then(f, g))
  {
    if s != [] {
      FlatMapTwice(s[..|s| - 1], f, g);
      FlatMapConcat(FlatMap(s[..|s| - 1], f), f(s[|s| - 1]), g);
    }
  }

  // -------------------------------------------------------------- stable sorting

  ghost predicate TotalPreorder<T(!new)>(le: (T, T) -> bool) {
    (forall x, y :: le(x, y) || le(y, x)) && (forall x, y, z :: le(x, y) && le(y, z) ==> le(x, z))
  }

  ghost predicate Sorted<T>(s: seq<T>, le: (T, T) -> bool) {
    forall i, j :: 0 <= i < j < |s| ==> le(s[i], s[j])
  }

  /** In front of everything it does not have to follow, so equal elements keep their order. */
  function InsertSorted<T>(x: T, s: seq<T>, le: (T, T) -> bool): seq<T> {
    if s == [] || le(x, s[0]) then [x] + s else [s[0]] + InsertSorted(x, s[1..], le)
  }

  /** `sort_by`; see `OnlyStableSort` for why it does not matter which stable sort this is. */
  function Sort<T>(s: seq<T>, le: (T, T) -> bool): seq<T> {
    if s == [] then [] else InsertSorted(s[0], Sort(s[1..], le), le)
  }

  lemma {:induction false} InsertKeepsAll<T>(x: T, s: seq<T>, le: (T, T) -> bool)
    ensures multiset(InsertSorted(x, s, le)) == multiset(s) + multiset{x}
  {
    if s != [] && !le(x, s[0]) {
      InsertKeepsAll(x, s[1..], le);
      assert s == [s[0]] + s[1..];
    }
  }

  lemma {:induction false} SortHas<T>(s: seq<T>, le: (T, T) -> bool, x: T)
    ensures x in Sort(s, le) <==> x in s
  {
    SortKeepsAll(s, le);
    assert x in Sort(s, le) <==> x in multiset(Sort(s, le));
  }

  lemma {:induction false} SortKeepsAll<T>(s: seq<T>, le: (T, T) -> bool)
    ensures multiset(Sort(s, le)) == multiset(s)
  {
    if s != [] {
      SortKeepsAll(s[1..], le);
      InsertKeepsAll(s[0], Sort(s[1..], le), le);
      assert s == [s[0]] + s[1..];
    }
  }

  lemma {:induction false} HeadFirst<T(!new)>(x: T, s: seq<T>, le: (T, T) -> bool)
    requires Sorted(s, le) && forall y :: y in s ==> le(x, y)
    ensures Sorted([x] + s, le)
  {
    var t := [x] + s;
    forall i, j | 0 <= i < j < |t| ensures le(t[i], t[j]) {
      assert t[j] == s[j - 1] && t[j] in s;
    }
  }

  /** `fine` refines `le` and x goes first among its equals: then inserting by `le` keeps the finer order too. */
  lemma {:induction false} InsertSorts<T(!new)>(x: T, s: seq<T>, le: (T, T) -> bool, fine: (T, T) -> bool)
    requires TotalPreorder(le) && Sorted(s, fine)
    requires forall a, b :: fine(a, b) ==> le(a, b)
    requires forall a, b :: le(a, b) && !le(b, a) ==> fine(a, b)
    requires forall y :: y in s && le(x, y) ==> fine(x, y)
    ensures Sorted(InsertSorted(x, s, le), fine)
  {
    if s == [] {
    } else if le(x, s[0]) {
      forall y | y in s ensures fine(x, y) {
        var i :| 0 <= i < |s| && s[i] == y;
        assert i > 0 ==> fine(s[0], s[i]);
      }
      HeadFirst(x, s, fine);
    } else {
      var rest := InsertSorted(x, s[1..], le);
      InsertSorts(x, s[1..], le, fine);
      InsertKeepsAll(x, s[1..], le);
      forall y | y in rest ensures fine(s[0], y) {
        assert y in multiset(rest);
        if y in s[1..] { var i :| 1 <= i < |s| && s[i] == y; assert fine(s[0], s[i]); }
      }
      HeadFirst(s[0], rest, fine);
    }
  }

  lemma {:induction false} SortSorts<T(!new)>(s: seq<T>, le: (T, T) -> bool)
    requires TotalPreorder(le)
    ensures Sorted(Sort(s, le), le)
  {
    if s != [] {
      SortSorts(s[1..], le);
      InsertSorts(s[0], Sort(s[1..], le), le, le);
    }
  }

  /** No two different elements are each before the other. */
  ghost predicate Antisymmetric<T(!new)>(s: seq<T>, le: (T, T) -> bool) {
    forall x, y :: x in s && y in s && le(x, y) && le(y, x) ==> x == y
  }

  lemma {:induction false} AntisymmetricPermute<T(!new)>(a: seq<T>, b: seq<T>, le: (T, T) -> bool)
    requires multiset(a) == multiset(b) && Antisymmetric(a, le)
    ensures Antisymmetric(b, le)
  {
    assert forall x :: x in b ==> x in multiset(b);
    assert forall x :: x in multiset(a) ==> x in a;
  }

  lemma {:induction false} TailOf<T(!new)>(s: seq<T>, le: (T, T) -> bool)
    requires s != [] && Sorted(s, le)
    ensures Sorted(s[1..], le) && multiset(s[1..]) == multiset(s) - multiset{s[0]}
    ensures Antisymmetric(s, le) ==> Antisymmetric(s[1..], le)
  {
    assert s == [s[0]] + s[1..];
    assert forall x :: x in s[1..] ==> x in s;
  }

  /** Then one sequence only has these elements in sorted order. */
  lemma {:induction false} SortedUnique<T(!new)>(a: seq<T>, b: seq<T>, le: (T, T) -> bool)
    requires Sorted(a, le) && Sorted(b, le) && multiset(a) == multiset(b) && Antisymmetric(a, le)
    ensures a == b
    decreases |a|
  {
    assert |a| == |multiset(a)| && |b| == |multiset(b)|;
    if a != [] {
      SmallestFirst(a, b, le);
      SmallestFirst(b, a, le);
      assert a[0] in a && b[0] in multiset(a);
      assert a[0] == b[0];
      TailOf(a, le);
      TailOf(b, le);
      hide Sorted, Antisymmetric;
      assert multiset(a[1..]) == multiset(b[1..]);
      SortedUnique(a[1..], b[1..], le);
      assert a == [a[0]] + a[1..] && b == [b[0]] + b[1..];
    }
  }

  lemma {:induction false} SmallestFirst<T>(a: seq<T>, b: seq<T>, le: (T, T) -> bool)
    requires Sorted(a, le) && multiset(a) == multiset(b) && a != [] && b != []
    ensures a[0] == b[0] || le(a[0], b[0])
  {
    assert b[0] in multiset(a);
    var j :| 0 <= j < |a| && a[j] == b[0];
    assert j > 0 ==> le(a[0], a[j]);
  }

  function Tied<T>(r: T, le: (T, T) -> bool): T -> seq<T> { x => if le(x, r) && le(r, x) then [x] else [] }

  /** Sorting leaves every class of equals as it was. */
  lemma {:induction false} SortIsStable<T(!new)>(s: seq<T>, r: T, le: (T, T) -> bool)
    requires TotalPreorder(le)
    ensures FlatMap(Sort(s, le), Tied(r, le)) == FlatMap(s, Tied(r, le))
  {
    if s != [] {
      var f, rest := Tied(r, le), Sort(s[1..], le);
      SortIsStable(s[1..], r, le);
      InsertIsStable(s[0], rest, r, le);
      assert s == [s[0]] + s[1..];
      FlatMapCons(s[0], s[1..], f);
    }
  }

  lemma {:induction false} InsertIsStable<T(!new)>(x: T, s: seq<T>, r: T, le: (T, T) -> bool)
    requires TotalPreorder(le)
    ensures FlatMap(InsertSorted(x, s, le), Tied(r, le)) == Tied(r, le)(x) + FlatMap(s, Tied(r, le))
  {
    var f := Tied(r, le);
    if s == [] || le(x, s[0]) {
      FlatMapCons(x, s, f);
    } else {
      var rest := InsertSorted(x, s[1..], le);
      InsertIsStable(x, s[1..], r, le);
      FlatMapCons(s[0], rest, f);
      FlatMapCons(s[0], s[1..], f);
      assert s == [s[0]] + s[1..];
      EitherEmpty(f(x), f(s[0]), FlatMap(s[1..], f));
    }
  }

  lemma {:induction false} EitherEmpty<T>(a: seq<T>, b: seq<T>, c: seq<T>)
    requires a == [] || b == []
    ensures b + (a + c) == a + (b + c)
  {
  }

  ghost predicate SameClasses<T(!new)>(a: seq<T>, b: seq<T>, le: (T, T) -> bool) {
    forall r :: FlatMap(a, Tied(r, le)) == FlatMap(b, Tied(r, le))
  }

  /** Any sorted sequence that leaves every class of equals as it was is what `Sort` gives. */
  lemma {:induction false} OnlyStableSort<T(!new)>(s: seq<T>, t: seq<T>, le: (T, T) -> bool)
    requires TotalPreorder(le) && Sorted(t, le) && SameClasses(s, t, le)
    ensures t == Sort(s, le)
  {
    SortSorts(s, le);
    forall r ensures FlatMap(t, Tied(r, le)) == FlatMap(Sort(s, le), Tied(r, le)) { SortIsStable(s, r, le); }
    SortedClassesUnique(t, Sort(s, le), le);
  }

  lemma {:induction false} SortedClassesUnique<T(!new)>(a: seq<T>, b: seq<T>, le: (T, T) -> bool)
    requires TotalPreorder(le) && Sorted(a, le) && Sorted(b, le) && SameClasses(a, b, le)
    ensures a == b
    decreases |a|
  {
    if a == [] && b == [] {
    } else {
      HeadInOther(a, b, le);
      HeadInOther(b, a, le);
      SameHeads(a, b, le);
      var c, d := a[1..], b[1..];
      assert a == [a[0]] + c && b == [b[0]] + d;
      forall r ensures FlatMap(c, Tied(r, le)) == FlatMap(d, Tied(r, le)) {
        var f := Tied(r, le);
        FlatMapCons(a[0], c, f);
        FlatMapCons(b[0], d, f);
        assert FlatMap(a, f) == FlatMap(b, f);
        assert FlatMap(c, f) == FlatMap(a, f)[|f(a[0])|..] && FlatMap(d, f) == FlatMap(b, f)[|f(b[0])|..];
      }
      assert Sorted(c, le) && Sorted(d, le);
      SortedClassesUnique(c, d, le);
    }
  }

  lemma {:induction false} HeadInOther<T(!new)>(a: seq<T>, b: seq<T>, le: (T, T) -> bool)
    requires TotalPreorder(le) && SameClasses(a, b, le)
    ensures a != [] ==> a[0] in b
  {
    if a != [] {
      var f := Tied(a[0], le);
      FlatMapHas(a, f, a[0]);
      FlatMapHas(b, f, a[0]);
      assert a[0] in a && a[0] in f(a[0]);
      assert FlatMap(a, f) == FlatMap(b, f);
      var x :| x in b && a[0] in f(x);
    }
  }

  lemma {:induction false} SameHeads<T(!new)>(a: seq<T>, b: seq<T>, le: (T, T) -> bool)
    requires TotalPreorder(le) && Sorted(a, le) && Sorted(b, le) && SameClasses(a, b, le)
    requires a != [] && b != [] && a[0] in b && b[0] in a
    ensures a[0] == b[0]
  {
    HeadFirstOf(a, b, le);
    HeadFirstOf(b, a, le);
    FirstOfClass(a, a[0], le);
    FirstOfClass(b, a[0], le);
    assert FlatMap(a, Tied(a[0], le)) == FlatMap(b, Tied(a[0], le));
  }

  lemma {:induction false} HeadFirstOf<T(!new)>(a: seq<T>, b: seq<T>, le: (T, T) -> bool)
    requires TotalPreorder(le) && Sorted(a, le) && a != [] && b != [] && b[0] in a
    ensures le(a[0], b[0])
  {
    var j :| 0 <= j < |a| && a[j] == b[0];
    assert j > 0 ==> le(a[0], a[j]);
  }

  lemma {:induction false} FirstOfClass<T(!new)>(a: seq<T>, r: T, le: (T, T) -> bool)
    requires a != [] && le(a[0], r) && le(r, a[0])
    ensures FlatMap(a, Tied(r, le)) != [] && FlatMap(a, Tied(r, le))[0] == a[0]
  {
    assert a == [a[0]] + a[1..];
    FlatMapCons(a[0], a[1..], Tied(r, le));
  }
}
