/**
 * PostgreSQL's `LIKE`/`ILIKE` pattern matching, as used by the user search
 * (`user.email ILIKE :email OR user.name ILIKE :name` with the bound value
 * `%<search>%`). The search term is interpolated unescaped, so its own `%`,
 * `_` and `\` act as pattern syntax.
 */
module SqlLike {
  import opened Text

  /**
   * `LIKE` with the default escape character: `%` matches any run of
   * characters, `_` exactly one character, `\` makes the next character
   * literal; every other character matches itself.
   */
  predicate Like(p: string, s: string)
    decreases |p| + |s|
  {
    if p == [] then s == []
    else if p[0] == '%' then Like(p[1..], s) || (s != [] && Like(p, s[1..]))
    else if p[0] == '_' then s != [] && Like(p[1..], s[1..])
    else if p[0] == '\\' && |p| >= 2 then s != [] && s[0] == p[1] && Like(p[2..], s[1..])
    else s != [] && s[0] == p[0] && Like(p[1..], s[1..])
  }

  /** `ILIKE`: `LIKE` after lower-casing pattern and subject (ASCII letters only in this model). */
  predicate ILike(p: string, s: string) {
    Like(Lower(p), Lower(s))
  }

  /** The pattern `%term%` that the repository binds for a search term. */
  function SubstringPattern(term: string): string {
    "%" + term + "%"
  }

  predicate IsPatternChar(c: char) {
    c == '%' || c == '_' || c == '\\'
  }

  /** A term in which no character is pattern syntax. */
  predicate Plain(q: string) {
    forall i :: 0 <= i < |q| ==> !IsPatternChar(q[i])
  }

  /** A lone `%` matches every string. */
  lemma {:induction false} PercentMatchesAll(t: string)
    ensures Like("%", t)
    decreases |t|
  {
    if t != [] {
      PercentMatchesAll(t[1..]);
    }
  }

  /** For a plain term `q`, the pattern `q%` matches exactly the strings that start with `q`. */
  lemma {:induction false} PlainPrefix(q: string, t: string)
    requires Plain(q)
    ensures Like(q + "%", t) <==> StartsWith(t, q)
    decreases |q|
  {
    if q == [] {
      assert q + "%" == "%";
      PercentMatchesAll(t);
    } else {
      var p := q + "%";
      assert p[0] == q[0] && p[1..] == q[1..] + "%";
      assert !IsPatternChar(q[0]);
      if t != [] {
        assert Plain(q[1..]) by {
          forall i | 0 <= i < |q[1..]| ensures !IsPatternChar(q[1..][i]) {
            assert q[1..][i] == q[i + 1];
          }
        }
        PlainPrefix(q[1..], t[1..]);
        if |q| <= |t| {
          assert t[..|q|] == [t[0]] + t[1..][..|q| - 1];
          assert q == [q[0]] + q[1..];
        }
      }
    }
  }

  /** A leading `%` lets the rest of the pattern match any suffix. */
  lemma {:induction false} LeadingPercent(r: string, t: string)
    ensures Like("%" + r, t) <==> exists i | 0 <= i <= |t| :: Like(r, t[i..])
    decreases |t|
  {
    var p := "%" + r;
    assert p[0] == '%' && p[1..] == r;
    if t == [] {
      assert t[0..] == t;
    } else {
      LeadingPercent(r, t[1..]);
      if Like(p, t) {
        if Like(r, t) {
          assert t[0..] == t;
        } else {
          var j :| 0 <= j <= |t[1..]| && Like(r, t[1..][j..]);
          assert t[1..][j..] == t[j + 1..];
        }
      }
      if exists i | 0 <= i <= |t| :: Like(r, t[i..]) {
        var i :| 0 <= i <= |t| && Like(r, t[i..]);
        if i == 0 {
          assert t[0..] == t;
        } else {
          assert t[1..][i - 1..] == t[i..];
        }
      }
    }
  }

  /** For a plain term, `%q%` is a LIKE pattern for "contains q". */
  lemma SubstringLike(q: string, t: string)
    requires Plain(q)
    ensures Like(SubstringPattern(q), t) <==> Contains(t, q)
  {
    assert SubstringPattern(q) == "%" + (q + "%");
    LeadingPercent(q + "%", t);
    forall i | 0 <= i <= |t|
      ensures Like(q + "%", t[i..]) <==> OccursAt(t, q, i)
    {
      PlainPrefix(q, t[i..]);
      if |q| <= |t| - i {
        assert t[i..][..|q|] == t[i..i + |q|];
      }
    }
  }

  /**
   * For a plain term, the repository's `ILIKE '%q%'` is exactly a
   * case-insensitive substring test.
   */
  lemma SearchIsSubstring(q: string, s: string)
    requires Plain(q)
    ensures ILike(SubstringPattern(q), s) <==> Contains(Lower(s), Lower(q))
  {
    LowerConcat("%", q);
    LowerConcat("%" + q, "%");
    assert Lower(SubstringPattern(q)) == SubstringPattern(Lower(q));
    assert Plain(Lower(q)) by {
      forall i | 0 <= i < |Lower(q)| ensures !IsPatternChar(Lower(q)[i]) {
        assert !IsPatternChar(q[i]);
      }
    }
    SubstringLike(Lower(q), Lower(s));
  }

  /** An unescaped `_` is a wildcard: the term "_" matches the name "x", which does not contain it. */
  lemma UnderscoreTermMatchesAnyCharacter()
    ensures ILike(SubstringPattern("_"), "x")
    ensures !Contains(Lower("x"), Lower("_"))
  {
    assert Lower(SubstringPattern("_")) == "%_%";
    assert Lower("x") == "x";
    assert Lower("_") == "_";
    assert Like("%", "");
    assert Like("_%", "x");
    assert Like("%_%", "x");
    forall i | 0 <= i <= 1 ensures !OccursAt("x", "_", i) {
      if i == 0 {
        assert "x"[0..1] == "x";
      }
    }
  }
}
