/** Rust's order on strings. */
module TextOrder {

  predicate StrLess(a: string, b: string) {
    b != [] && (a == [] || a[0] < b[0] || (a[0] == b[0] && StrLess(a[1..], b[1..])))
  }

  predicate StrLe(a: string, b: string) { a == b || StrLess(a, b) }

  lemma {:induction false} StrLessConcat(a: string, b: string, x: string, y: string)
    requires |a| == |b|
    ensures StrLess(a + x, b + y) <==> StrLess(a, b) || (a == b && StrLess(x, y))
  {
    if a == [] {
      assert a + x == x && b + y == y;
    } else {
      assert (a + x)[1..] == a[1..] + x && (b + y)[1..] == b[1..] + y;
      StrLessConcat(a[1..], b[1..], x, y);
      assert a == b <==> a[0] == b[0] && a[1..] == b[1..];
    }
  }

  lemma {:induction false} NotLessThanItself(s: string)
    ensures !StrLess(s, s)
  {
    if s != [] { NotLessThanItself(s[1..]); }
  }

  lemma {:induction false} OneIsLess(a: string, b: string)
    ensures a == b || StrLess(a, b) || StrLess(b, a)
  {
    if a != [] && b != [] {
      OneIsLess(a[1..], b[1..]);
      assert a[0] == b[0] && a[1..] == b[1..] ==> a == b;
    }
  }

  lemma {:induction false} LessTransitive(a: string, b: string, c: string)
    requires StrLess(a, b) && StrLess(b, c)
    ensures StrLess(a, c)
  {
    if a != [] && a[0] == b[0] == c[0] { LessTransitive(a[1..], b[1..], c[1..]); }
  }

  /** Three comparisons in turn: a number, then two strings. */
  datatype Key = Key(rank: nat, folded: string, raw: string)

  predicate KeyLe(a: Key, b: Key) {
    a.rank < b.rank || (a.rank == b.rank && (StrLess(a.folded, b.folded) || (a.folded == b.folded && StrLe(a.raw, b.raw))))
  }

  lemma {:induction false} KeysOrdered(a: Key, b: Key, c: Key)
    ensures KeyLe(a, b) || KeyLe(b, a)
    ensures KeyLe(a, b) && KeyLe(b, a) ==> a == b
    ensures KeyLe(a, b) && KeyLe(b, c) ==> KeyLe(a, c)
  {
    OneIsLess(a.folded, b.folded);
    OneIsLess(a.raw, b.raw);
    Asymmetric(a.folded, b.folded);
    Asymmetric(a.raw, b.raw);
    if StrLess(a.folded, b.folded) && StrLess(b.folded, c.folded) { LessTransitive(a.folded, b.folded, c.folded); }
    if StrLess(a.raw, b.raw) && StrLess(b.raw, c.raw) { LessTransitive(a.raw, b.raw, c.raw); }
  }

  lemma {:induction false} Asymmetric(a: string, b: string)
    ensures !(StrLess(a, b) && StrLess(b, a))
  {
    NotLessThanItself(a);
    if StrLess(a, b) && StrLess(b, a) { LessTransitive(a, b, a); }
  }
}
