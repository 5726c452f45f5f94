/** Full names as component lists joined by '/'. */
module Paths {
  ghost predicate SlashFree(s: string) {
    '/' !in s
  }

  ghost predicate SlashFreePath(p: seq<string>) {
    |p| > 0 && forall c :: c in p ==> SlashFree(c)
  }

  function Join(p: seq<string>): string
    requires |p| > 0
  {
    if |p| == 1 then p[0] else Join(p[..|p| - 1]) + "/" + p[|p| - 1]
  }

  /** The slash of x/a is its last character of that kind. */
  lemma LastSlash(x: string, a: string)
    requires SlashFree(a)
    ensures var s := x + "/" + a;
      s[|x|] == '/' && s[..|x|] == x && s[|x| + 1..] == a && forall k :: |x| < k < |s| ==> s[k] != '/'
  {
  }

  /** A string has at most one split at its last slash. */
  lemma LastSlashIsUnique(x: string, a: string, y: string, b: string)
    requires SlashFree(a) && SlashFree(b)
    requires x + "/" + a == y + "/" + b
    ensures x == y && a == b
  {
    LastSlash(x, a);
    LastSlash(y, b);
    var s := x + "/" + a;
    assert s == y + "/" + b;
    assert |x| == |y|;
  }

  /** A path has one component exactly when its name has no slash. */
  lemma SlashFreeJoin(p: seq<string>)
    requires SlashFreePath(p)
    ensures SlashFree(Join(p)) <==> |p| == 1
  {
  }

  lemma {:induction false} JoinInjective(p: seq<string>, q: seq<string>)
    requires SlashFreePath(p) && SlashFreePath(q)
    requires Join(p) == Join(q)
    ensures p == q
  {
    SlashFreeJoin(p);
    SlashFreeJoin(q);
    if |p| > 1 {
      LastSlashIsUnique(Join(p[..|p| - 1]), p[|p| - 1], Join(q[..|q| - 1]), q[|q| - 1]);
      JoinInjective(p[..|p| - 1], q[..|q| - 1]);
      assert p == p[..|p| - 1] + [p[|p| - 1]] && q == q[..|q| - 1] + [q[|q| - 1]];
    }
  }

  /** A string that starts with "p/" is the name of a path strictly below p, and conversely. */
  lemma {:induction false} SlashPrefixIsProperPrefix(p: seq<string>, q: seq<string>)
    requires SlashFreePath(p) && SlashFreePath(q)
    ensures Join(p) + "/" <= Join(q) <==> p < q
  {
    SlashFreeJoin(q);
    if |q| == 1 {
      assert (Join(p) + "/")[|Join(p)|] == '/';
    } else {
      var r, c := q[..|q| - 1], q[|q| - 1];
      assert q == r + [c];
      SlashPrefixIsProperPrefix(p, r);
      if Join(p) + "/" <= Join(q) {
        SlashPrefixStep(Join(p), Join(r), c);
        if Join(p) == Join(r) {
          JoinInjective(p, r);
        }
      }
      if p < q && p != r {
        assert p <= r;
      }
    }
  }

  lemma SlashPrefixStep(x: string, y: string, c: string)
    requires SlashFree(c)
    requires x + "/" <= y + "/" + c
    ensures x == y || x + "/" <= y
  {
    LastSlash(y, c);
    var s := y + "/" + c;
    assert (x + "/")[|x|] == '/';
    assert s[|x|] == '/' && |x| <= |y|;
    assert s[..|x|] == x;
    if |x| < |y| {
      assert (x + "/") == s[..|x| + 1] == y[..|x| + 1];
    }
  }
}
