/**
 LIKE patterns and the escaping that makes typed text match itself and nothing else.
 The matcher is PostgreSQL's (section 9.7.1 of its manual) with backslash as the escape.
 */
module Like {

  /** The characters LIKE reads as syntax. */
  predicate Special(c: char) {
    c == '\\' || c == '%' || c == '_'
  }

  function EscapeChar(c: char): string {
    if Special(c) then ['\\', c] else [c]
  }

  /** Every special character of v quoted by a backslash. */
  function LikeLiteral(v: string): string {
    if v == "" then "" else EscapeChar(v[0]) + LikeLiteral(v[1..])
  }

  /** LIKE. A backslash with nothing after it matches nothing here; PostgreSQL raises an error (see Dangling). */
  predicate Matches(p: string, t: string)
    decreases |p| + |t|
  {
    if p == "" then t == ""
    else if p[0] == '%' then Matches(p[1..], t) || (t != "" && Matches(p, t[1..]))
    else if t == "" then false
    else if p[0] == '_' then Matches(p[1..], t[1..])
    else if p[0] == '\\' then |p| >= 2 && p[1] == t[0] && Matches(p[2..], t[1..])
    else p[0] == t[0] && Matches(p[1..], t[1..])
  }

  /** The pattern ends in an escape with nothing to quote. */
  predicate Dangling(p: string) {
    if p == "" then false
    else if p[0] == '\\' then |p| == 1 || Dangling(p[2..])
    else Dangling(p[1..])
  }

  // ---- An escaped text inside a pattern -------------------------------------------

  ghost predicate HasPrefix(t: string, v: string) {
    |v| <= |t| && t[..|v|] == v
  }

  ghost predicate HasSuffix(t: string, v: string) {
    |v| <= |t| && t[|t| - |v|..] == v
  }

  ghost predicate Contains(t: string, v: string) {
    exists i :: 0 <= i <= |t| && HasPrefix(t[i..], v)
  }

  /** An escaped text consumes exactly itself, and hands the rest of the text to the rest of the pattern. */
  lemma {:induction false} LiteralConsumesItself(v: string, q: string, t: string)
    ensures Matches(LikeLiteral(v) + q, t) <==> HasPrefix(t, v) && Matches(q, t[|v|..])
  {
    var p := LikeLiteral(v) + q;
    if v == "" {
      assert p == q && t[0..] == t;
    } else {
      var tail := LikeLiteral(v[1..]) + q;
      assert p == EscapeChar(v[0]) + tail;
      if t != "" {
        LiteralConsumesItself(v[1..], q, t[1..]);
        if Special(v[0]) {
          assert p[2..] == tail;
        } else {
          assert p[1..] == tail;
        }
        assert v == [v[0]] + v[1..] && t == [t[0]] + t[1..];
        if t[0] == v[0] && |v| <= |t| {
          assert t[1..][|v| - 1..] == t[|v|..];
          assert t[..|v|] == [t[0]] + t[1..][..|v| - 1];
        }
      }
    }
  }

  /** A percent sign in front tries the rest of the pattern at every position. */
  lemma {:induction false} PercentTriesEverywhere(q: string, t: string)
    ensures Matches("%" + q, t) <==> exists i :: 0 <= i <= |t| && Matches(q, t[i..])
  {
    var p := "%" + q;
    assert p[1..] == q && t[0..] == t;
    if t == "" {
      assert forall i :: 0 <= i <= |t| ==> t[i..] == t;
    } else {
      PercentTriesEverywhere(q, t[1..]);
      forall i | 0 <= i <= |t[1..]|
        ensures t[1..][i..] == t[i + 1..]
      {
      }
      if i :| 0 <= i <= |t| && Matches(q, t[i..]) && !Matches(q, t) {
        assert t[1..][i - 1..] == t[i..];
      }
    }
  }

  lemma PercentMatchesAll(t: string)
    ensures Matches("%", t)
  {
    PercentTriesEverywhere("", t);
    assert "%" + "" == "%" && t[|t|..] == "";
  }

  /** startsWith: the text, then anything. */
  lemma StartsWithIsPrefix(v: string, t: string)
    ensures Matches(LikeLiteral(v) + "%", t) <==> HasPrefix(t, v)
  {
    LiteralConsumesItself(v, "%", t);
    if HasPrefix(t, v) {
      PercentMatchesAll(t[|v|..]);
    }
  }

  /** contains: anything, the text, then anything. */
  lemma ContainsIsSubstring(v: string, t: string)
    ensures Matches("%" + LikeLiteral(v) + "%", t) <==> Contains(t, v)
  {
    var q := LikeLiteral(v) + "%";
    assert "%" + LikeLiteral(v) + "%" == "%" + q;
    PercentTriesEverywhere(q, t);
    forall i | 0 <= i <= |t|
      ensures Matches(q, t[i..]) <==> HasPrefix(t[i..], v)
    {
      StartsWithIsPrefix(v, t[i..]);
    }
  }

  /** The escaped text alone matches that text and no other. */
  lemma LiteralMatchesOnlyItself(v: string, t: string)
    ensures Matches(LikeLiteral(v), t) <==> t == v
  {
    LiteralConsumesItself(v, "", t);
    assert LikeLiteral(v) + "" == LikeLiteral(v);
    if HasPrefix(t, v) && Matches("", t[|v|..]) {
      assert t == t[..|v|] + t[|v|..];
    }
  }

  /** endsWith: anything, then the text. */
  lemma EndsWithIsSuffix(v: string, t: string)
    ensures Matches("%" + LikeLiteral(v), t) <==> HasSuffix(t, v)
  {
    PercentTriesEverywhere(LikeLiteral(v), t);
    forall i | 0 <= i <= |t|
      ensures Matches(LikeLiteral(v), t[i..]) <==> t[i..] == v
    {
      LiteralMatchesOnlyItself(v, t[i..]);
    }
    if i :| 0 <= i <= |t| && t[i..] == v {
      assert i == |t| - |v|;
    }
  }

  /** No escape in an escaped text reaches into what follows it. */
  lemma {:induction false} NeverDangling(v: string, q: string)
    ensures Dangling(LikeLiteral(v) + q) <==> Dangling(q)
  {
    var p := LikeLiteral(v) + q;
    if v == "" {
      assert p == q;
    } else {
      var tail := LikeLiteral(v[1..]) + q;
      assert p == EscapeChar(v[0]) + tail;
      NeverDangling(v[1..], q);
      if Special(v[0]) {
        assert p[2..] == tail;
      } else {
        assert p[1..] == tail;
      }
    }
  }

  /** The four patterns the compiler emits are all well formed. */
  lemma EmittedPatternsWellFormed(v: string)
    ensures !Dangling("%" + LikeLiteral(v) + "%") && !Dangling(LikeLiteral(v) + "%") && !Dangling("%" + LikeLiteral(v))
  {
    NeverDangling(v, "%");
    NeverDangling(v, "");
    assert LikeLiteral(v) + "" == LikeLiteral(v);
    assert ("%" + LikeLiteral(v) + "%")[1..] == LikeLiteral(v) + "%";
    assert ("%" + LikeLiteral(v))[1..] == LikeLiteral(v);
  }

  /** Why the escaping is needed: unescaped, the pattern takes a text that does not contain the value. */
  lemma UnescapedMatchesMore()
    ensures Matches("a_b", "axb") && !Matches(LikeLiteral("a_b"), "axb")
  {
    LiteralMatchesOnlyItself("a_b", "axb");
    assert "a_b"[1..] == "_b" && "axb"[1..] == "xb" && "_b"[1..] == "b" && "xb"[1..] == "b" && "b"[1..] == "";
    assert Matches("", "") && Matches("b", "b") && Matches("_b", "xb");
  }

  // ---- ILIKE ------------------------------------------------------------------------

  /** A lower-casing of characters that leaves LIKE's syntax alone, and turns nothing into it. */
  ghost predicate KeepsSyntax(lower: char -> char) {
    forall c: char :: if Special(c) then lower(c) == c else !Special(lower(c))
  }

  function Lower(lower: char -> char, t: string): (r: string)
    ensures |r| == |t| && forall i :: 0 <= i < |t| ==> r[i] == lower(t[i])
  {
    if t == "" then "" else [lower(t[0])] + Lower(lower, t[1..])
  }

  /** ILIKE lower-cases the pattern and the text and matches the results. */
  predicate MatchesAnyCase(lower: char -> char, p: string, t: string) {
    Matches(Lower(lower, p), Lower(lower, t))
  }

  lemma LowerConcat(lower: char -> char, a: string, b: string)
    ensures Lower(lower, a + b) == Lower(lower, a) + Lower(lower, b)
  {
  }

  /** Lower-casing an escaped text is escaping the lower-cased text. */
  lemma {:induction false} LowerKeepsEscapes(lower: char -> char, v: string)
    requires KeepsSyntax(lower)
    ensures Lower(lower, LikeLiteral(v)) == LikeLiteral(Lower(lower, v))
  {
    if v != "" {
      LowerKeepsEscapes(lower, v[1..]);
      LowerConcat(lower, EscapeChar(v[0]), LikeLiteral(v[1..]));
      assert Lower(lower, v)[1..] == Lower(lower, v[1..]);
      assert Lower(lower, EscapeChar(v[0])) == EscapeChar(lower(v[0]));
    }
  }

  /** The three ILIKE forms ask whether the lower-cased value is inside, at the front, or at the end of the text. */
  lemma AnyCaseForms(lower: char -> char, v: string, t: string)
    requires KeepsSyntax(lower)
    ensures MatchesAnyCase(lower, "%" + LikeLiteral(v) + "%", t) <==> Contains(Lower(lower, t), Lower(lower, v))
    ensures MatchesAnyCase(lower, LikeLiteral(v) + "%", t) <==> HasPrefix(Lower(lower, t), Lower(lower, v))
    ensures MatchesAnyCase(lower, "%" + LikeLiteral(v), t) <==> HasSuffix(Lower(lower, t), Lower(lower, v))
  {
    var lv, lt := Lower(lower, v), Lower(lower, t);
    LowerKeepsEscapes(lower, v);
    assert Lower(lower, "%") == "%";
    LowerConcat(lower, "%" + LikeLiteral(v), "%");
    LowerConcat(lower, "%", LikeLiteral(v));
    LowerConcat(lower, LikeLiteral(v), "%");
    ContainsIsSubstring(lv, lt);
    StartsWithIsPrefix(lv, lt);
    EndsWithIsSuffix(lv, lt);
  }
}
