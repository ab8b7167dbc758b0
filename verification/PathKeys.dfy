/** Command paths (src/spec/command_tree.rs) and the "a/b/c" strings the registry keys everything by. */
module PathKeys {
  type Path = seq<string>

  /** `CommandPath::new` refuses a segment with a slash in it; empty segments and an empty path are let through. */
  predicate PathOk(p: Path) {
    forall i :: 0 <= i < |p| ==> '/' !in p[i]
  }

  function Join(p: Path): string {
    if p == [] then "" else if |p| == 1 then p[0] else p[0] + "/" + Join(p[1..])
  }

  function FirstSlash(s: string): (i: nat)
    requires '/' in s
    ensures i < |s| && s[i] == '/' && '/' !in s[..i]
  {
    if s[0] == '/' then 0 else 1 + FirstSlash(s[1..])
  }

  /** `str::split('/')`: at least one piece, none of them with a slash. */
  function Split(s: string): (p: Path)
    ensures |p| >= 1 && PathOk(p) && Join(p) == s
  {
    if '/' !in s then [s]
    else
      var i := FirstSlash(s);
      assert s == s[..i] + "/" + s[i + 1..];
      [s[..i]] + Split(s[i + 1..])
  }

  /** `b.starts_with("{a}/")`. */
  predicate Above(a: string, b: string) { a + "/" <= b }

  predicate ProperPrefix(p: Path, q: Path) { |p| < |q| && q[..|p|] == p }

  lemma {:induction false} JoinHasSlash(p: Path)
    requires |p| >= 2
    ensures |Join(p)| > |p[0]| && Join(p)[..|p[0]|] == p[0] && Join(p)[|p[0]|] == '/' && Join(p)[|p[0]| + 1..] == Join(p[1..])
  {
  }

  /** Splitting undoes joining, so joining is injective on non-empty paths. */
  lemma {:induction false} SplitJoin(p: Path)
    requires PathOk(p) && p != []
    ensures Split(Join(p)) == p
  {
    if |p| >= 2 {
      var s := Join(p);
      JoinHasSlash(p);
      assert s[|p[0]|] == '/';
      assert FirstSlash(s) == |p[0]| by { FirstSlashAt(s, |p[0]|); }
      SplitJoin(p[1..]);
    }
  }

  lemma {:induction false} FirstSlashAt(s: string, i: nat)
    requires i < |s| && s[i] == '/' && '/' !in s[..i]
    ensures '/' in s && FirstSlash(s) == i
  {
    var j := FirstSlash(s);
    assert forall k :: 0 <= k < i ==> s[k] == s[..i][k];
    assert forall k :: 0 <= k < j ==> s[k] == s[..j][k];
  }

  /** A key starts with "{p}/" exactly when p is a proper prefix of the key's path. */
  lemma {:induction false} AboveIsProperPrefix(p: Path, q: Path)
    requires PathOk(p) && PathOk(q) && p != [] && q != []
    ensures Above(Join(p), Join(q)) <==> ProperPrefix(p, q)
    decreases |p|
  {
    var s, t := Join(p), Join(q);
    if |q| == 1 {
      assert t == q[0] && (s + "/")[|s|] == '/';
    } else if |p| == 1 {
      JoinHasSlash(q);
      if Above(s, t) {
        assert (s + "/")[|s|] == t[|s|] == '/' && t[..|s|] == s;
        FirstSlashAt(t, |s|);
        FirstSlashAt(t, |q[0]|);
      }
    } else {
      JoinHasSlash(p);
      JoinHasSlash(q);
      AboveIsProperPrefix(p[1..], q[1..]);
      var u, w := Join(p[1..]), Join(q[1..]);
      assert s + "/" == p[0] + "/" + (u + "/") && t == q[0] + "/" + w;
      if Above(s, t) {
        assert t[|p[0]|] == '/' && t[..|p[0]|] == p[0];
        FirstSlashAt(t, |p[0]|);
        FirstSlashAt(t, |q[0]|);
        assert Above(u, w);
      }
      if ProperPrefix(p, q) {
        assert q[0] == p[0] && q[1..][..|p| - 1] == p[1..];
      }
    }
  }

  /** The joined proper prefixes of a path: what `command_ancestor` and `existing_alias_ancestor` look up. */
  function Ancestors(p: Path): set<string> {
    set len | 1 <= len < |p| :: Join(p[..len])
  }

  lemma {:induction false} AncestorsAreAbove(p: Path, k: string)
    requires PathOk(p)
    ensures k in Ancestors(p) <==> Above(k, Join(p))
  {
    if p == [] {
    } else {
      AboveIsProperPrefix(Split(k), p);
      if k in Ancestors(p) {
        var len :| 1 <= len < |p| && k == Join(p[..len]);
        SplitJoin(p[..len]);
      }
      if ProperPrefix(Split(k), p) {
        assert k == Join(p[..|Split(k)|]);
      }
    }
  }

  /** The last segment of a path replaced: where a relative alias of the command there lives. */
  function Sibling(p: Path, name: string): string { Join(p[..if p == [] then 0 else |p| - 1] + [name]) }

  /** A slash-free sibling has exactly the proper prefixes of the key it is a sibling of. */
  lemma {:induction false} SiblingAncestors(k: string, name: string, a: string)
    requires '/' !in name
    ensures Above(a, Sibling(Split(k), name)) <==> Above(a, k)
  {
    var p := Split(k);
    var q := p[..|p| - 1] + [name];
    AncestorsAreAbove(p, a);
    AncestorsAreAbove(q, a);
    assert forall len :: 1 <= len < |p| ==> q[..len] == p[..len];
  }
}
