/** Substring search through SQL LIKE (store/query_list.go): escaping makes the pattern mean what the
    user typed. The semantics of LIKE is section 9.7.1 of the PostgreSQL manual. */
module LikePattern {
  import opened Text

  /** `s LIKE p ESCAPE '\'`. A pattern that ends in the escape rune matches nothing. */
  predicate Like(s: string, p: string)
    decreases |s| + |p|
  {
    if p == "" then s == ""
    else if p[0] == '\\' then |p| > 1 && s != "" && s[0] == p[1] && Like(s[1..], p[2..])
    else if p[0] == '%' then Like(s, p[1..]) || (s != "" && Like(s[1..], p))
    else s != "" && (p[0] == '_' || s[0] == p[0]) && Like(s[1..], p[1..])
  }

  predicate Special(c: char) {
    c == '\\' || c == '%' || c == '_'
  }

  function Escape(s: string): string {
    if s == "" then "" else EscapeRune(s[0]) + Escape(s[1..])
  }

  function LikeContainsPattern(value: string): string {
    "%" + Escape(Lower(TrimSpace(value))) + "%"
  }

  function EscapeRune(c: char): string {
    if Special(c) then ['\\', c] else [c]
  }

  /** An escaped rune matches itself. */
  lemma EscapedRune(s: string, c: char, rest: string)
    ensures Like(s, EscapeRune(c) + rest) <==> s != "" && s[0] == c && Like(s[1..], rest)
  {
    var p := EscapeRune(c) + rest;
    assert p[|EscapeRune(c)|..] == rest;
  }

  lemma PrefixSplits(e: string, s: string)
    requires e != "" && s != ""
    ensures e <= s <==> s[0] == e[0] && e[1..] <= s[1..]
    ensures e <= s ==> s[1..][|e[1..]|..] == s[|e|..]
  {
    assert s == [s[0]] + s[1..] && e == [e[0]] + e[1..];
  }

  /** An escaped string matches itself and nothing else. */
  lemma {:induction false} EscapedMatchesItself(s: string, e: string, rest: string)
    ensures Like(s, Escape(e) + rest) <==> e <= s && Like(s[|e|..], rest)
    decreases |e|
  {
    hide Like;
    if e == "" {
      assert Escape(e) + rest == rest && s[0..] == s;
    } else {
      assert Escape(e) + rest == EscapeRune(e[0]) + (Escape(e[1..]) + rest);
      EscapedRune(s, e[0], Escape(e[1..]) + rest);
      if s != "" {
        EscapedMatchesItself(s[1..], e[1..], rest);
        PrefixSplits(e, s);
      }
    }
  }

  lemma {:induction false} PercentMatchesAll(s: string)
    ensures Like(s, "%")
    decreases |s|
  {
    if s != "" { PercentMatchesAll(s[1..]); }
    assert "%"[1..] == "";
  }

  /** A leading percent sign skips any prefix. */
  lemma {:induction false} PercentSkips(s: string, p: string)
    ensures Like(s, "%" + p) <==> exists i | 0 <= i <= |s| :: Like(s[i..], p)
    decreases |s|
  {
    var q := "%" + p;
    assert q[0] == '%' && q[1..] == p;
    assert s[0..] == s;
    if s != "" {
      PercentSkips(s[1..], p);
      if Like(s[1..], q) {
        var i :| 0 <= i <= |s[1..]| && Like(s[1..][i..], p);
        assert s[1..][i..] == s[i + 1..];
      }
      if i :| 0 < i <= |s| && Like(s[i..], p) {
        assert s[1..][i - 1..] == s[i..];
      }
    }
  }

  /** The pattern matches exactly the strings that contain the trimmed, lower-cased query. */
  lemma LikeIsContains(s: string, query: string)
    ensures Like(s, LikeContainsPattern(query)) <==> Contains(s, Lower(TrimSpace(query)))
  {
    var q := Lower(TrimSpace(query));
    hide TrimSpace, Lower, Escape;
    PercentSkips(s, Escape(q) + "%");
    assert LikeContainsPattern(query) == "%" + (Escape(q) + "%");
    forall i | 0 <= i <= |s| ensures Like(s[i..], Escape(q) + "%") <==> q <= s[i..] {
      hide Like;
      EscapedMatchesItself(s[i..], q, "%");
      if q <= s[i..] { PercentMatchesAll(s[i..][|q|..]); }
    }
  }
}
