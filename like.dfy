/** PostgreSQL's `ILIKE` operator, which the search route uses with the pattern `%q%`. In a
    LIKE pattern `%` matches any run of characters, `_` matches exactly one character and `\`
    (the default escape character) makes the next character literal; every other character
    matches itself, here up to ASCII case folding. */
module Like {

  /** ASCII case folding; collations beyond ASCII are not modelled. */
  function Lower(c: char): char {
    if 'A' <= c <= 'Z' then (c as int + 32) as char else c
  }

  /** The two strings are equal up to case. */
  predicate FoldEq(a: string, b: string) {
    |a| == |b| && forall i :: 0 <= i < |a| ==> Lower(a[i]) == Lower(b[i])
  }

  /** `t` starts with `q` up to case. */
  predicate StartsFolded(t: string, q: string) {
    |q| <= |t| && FoldEq(t[..|q|], q)
  }

  /** `q` occurs in `s` up to case: the case-insensitive substring test the search route means. */
  ghost predicate ContainsFolded(s: string, q: string) {
    exists i :: 0 <= i <= |s| && StartsFolded(s[i..], q)
  }

  /** `q` holds none of the pattern's special characters. */
  predicate Literal(q: string) {
    forall i :: 0 <= i < |q| ==> q[i] != '%' && q[i] != '_' && q[i] != '\\'
  }

  /** `s ILIKE p`. A pattern ending in a lone `\` is an error in PostgreSQL; it is never produced
      by `%q%` (a trailing `\` of `q` escapes the final `%`), and here it simply does not match. */
  function Like(s: string, p: string): bool
    decreases |s| + |p|
  {
    if p == [] then s == []
    else if p[0] == '%' then Like(s, p[1..]) || (s != [] && Like(s[1..], p))
    else if s == [] then false
    else if p[0] == '_' then Like(s[1..], p[1..])
    else if p[0] == '\\' then |p| > 1 && Lower(s[0]) == Lower(p[1]) && Like(s[1..], p[2..])
    else Lower(s[0]) == Lower(p[0]) && Like(s[1..], p[1..])
  }

  /** The search pattern built from a search term. */
  function Pattern(q: string): (p: string)
    ensures |p| == |q| + 2 && p[0] == '%' && p[|p| - 1] == '%'
  {
    "%" + q + "%"
  }

  /** A lone `%` matches every string. */
  lemma {:induction false} LikeAnything(s: string)
    ensures Like(s, "%")
    decreases |s|
  {
    assert "%"[1..] == "";
    if s != [] {
      LikeAnything(s[1..]);
    }
  }

  /** For a literal `q`, `q%` matches exactly the strings that start with `q` up to case. */
  lemma {:induction false} LikePrefix(t: string, q: string)
    requires Literal(q)
    ensures Like(t, q + "%") <==> StartsFolded(t, q)
    decreases |q|
  {
    if q == [] {
      assert q + "%" == "%";
      LikeAnything(t);
    } else {
      var p := q + "%";
      assert p[0] == q[0];
      assert p[1..] == q[1..] + "%";
      assert Literal(q[1..]) by {
        forall i | 0 <= i < |q[1..]| ensures q[1..][i] != '%' && q[1..][i] != '_' && q[1..][i] != '\\' {
          assert q[1..][i] == q[i + 1];
        }
      }
      if t != [] {
        LikePrefix(t[1..], q[1..]);
        if |q| <= |t| {
          var a, b := t[..|q|], t[1..][..|q| - 1];
          assert a == [t[0]] + b;
          assert FoldEq(a, q) <==> Lower(t[0]) == Lower(q[0]) && FoldEq(b, q[1..]) by {
            if Lower(t[0]) == Lower(q[0]) && FoldEq(b, q[1..]) {
              forall i | 0 <= i < |a| ensures Lower(a[i]) == Lower(q[i]) {
                if i > 0 { assert a[i] == b[i - 1] && q[i] == q[1..][i - 1]; }
              }
            }
            if FoldEq(a, q) {
              assert Lower(a[0]) == Lower(q[0]);
              forall i | 0 <= i < |b| ensures Lower(b[i]) == Lower(q[1..][i]) {
                assert b[i] == a[i + 1] && q[1..][i] == q[i + 1];
              }
            }
          }
        }
      }
    }
  }

  /** `%r` matches `s` exactly when `r` matches some suffix of `s`. */
  lemma {:induction false} LikeSuffix(s: string, r: string)
    ensures Like(s, "%" + r) <==> exists i :: 0 <= i <= |s| && Like(s[i..], r)
    decreases |s|
  {
    var p := "%" + r;
    assert p[0] == '%' && p[1..] == r;
    assert s[0..] == s;
    if s != [] {
      LikeSuffix(s[1..], r);
      if Like(s[1..], p) {
        var j :| 0 <= j <= |s[1..]| && Like(s[1..][j..], r);
        assert s[1..][j..] == s[j + 1..];
      }
      if exists i :: 0 <= i <= |s| && Like(s[i..], r) {
        var i :| 0 <= i <= |s| && Like(s[i..], r);
        if i > 0 {
          assert s[1..][i - 1..] == s[i..];
        }
      }
    }
  }

  /** For a search term without wildcards, `ILIKE '%q%'` is the case-insensitive substring test. */
  lemma LikeIsContainsFolded(s: string, q: string)
    requires Literal(q)
    ensures Like(s, Pattern(q)) <==> ContainsFolded(s, q)
  {
    assert Pattern(q) == "%" + (q + "%");
    LikeSuffix(s, q + "%");
    if Like(s, Pattern(q)) {
      var i :| 0 <= i <= |s| && Like(s[i..], q + "%");
      LikePrefix(s[i..], q);
    }
    if ContainsFolded(s, q) {
      var i :| 0 <= i <= |s| && StartsFolded(s[i..], q);
      LikePrefix(s[i..], q);
    }
  }

  /** The search term is not escaped, so `_` in it is a wildcard: searching for "_" matches a
      name that holds no underscore at all. */
  lemma UnderscoreIsAWildcard()
    ensures Like("Ann", Pattern("_")) && !ContainsFolded("Ann", "_")
  {
    var p := Pattern("_");
    assert p == "%_%";
    assert p[1..] == "_%" && "_%"[1..] == "%" && "%"[1..] == "";
    assert "Ann"[1..] == "nn";
    LikeAnything("nn");
    assert Like("nn", "%");
    assert Like("Ann", "_%");
    forall i | 0 <= i <= 3 ensures !StartsFolded("Ann"[i..], "_") {
      if i < 3 { assert "Ann"[i..][..1][0] == "Ann"[i]; }
    }
  }
}
