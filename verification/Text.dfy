/** Strings as the catalog's code handles them: sequences of Unicode scalar values, trimmed,
    lower-cased and compared the way Go's `strings` package does it. Code point order is
    the byte order of the UTF-8 encodings, so `Less` is `strings.Compare(a, b) < 0`. */
module Text {

  /** The runes `unicode.IsSpace` accepts. */
  predicate IsSpace(c: char) {
    || '\t' <= c <= '\r' || c == ' ' || c == '\U{85}' || c == '\U{A0}' || c == '\U{1680}'
    || '\U{2000}' <= c <= '\U{200A}' || c == '\U{2028}' || c == '\U{2029}' || c == '\U{202F}'
    || c == '\U{205F}' || c == '\U{3000}'
  }

  predicate All(p: char -> bool, s: string) {
    forall i | 0 <= i < |s| :: p(s[i])
  }

  /** Neither end of `s` is in the cut set. */
  predicate IsTrimmed(p: char -> bool, s: string) {
    s != [] ==> !p(s[0]) && !p(s[|s| - 1])
  }

  function TrimLeft(p: char -> bool, s: string): (r: string)
    ensures |r| <= |s|
    ensures r != [] ==> !p(r[0]) && r[|r| - 1] == s[|s| - 1]
  {
    if s != [] && p(s[0]) then TrimLeft(p, s[1..]) else s
  }

  function TrimRight(p: char -> bool, s: string): (r: string)
    ensures |r| <= |s|
    ensures r != [] ==> !p(r[|r| - 1]) && r[0] == s[0]
  {
    if s != [] && p(s[|s| - 1]) then TrimRight(p, s[..|s| - 1]) else s
  }

  /** `strings.TrimFunc`: drops the longest prefix and suffix made of cut-set runes. */
  function Trim(p: char -> bool, s: string): (r: string)
    ensures IsTrimmed(p, r)
    ensures |r| <= |s|
  {
    TrimRight(p, TrimLeft(p, s))
  }

  function TrimSpace(s: string): string {
    Trim(IsSpace, s)
  }

  predicate Blank(s: string) {
    TrimSpace(s) == ""
  }

  lemma TrimmedIsFixed(p: char -> bool, s: string)
    requires IsTrimmed(p, s)
    ensures Trim(p, s) == s
  {
  }

  lemma OneMore(s: string, rest: string, core: string)
    requires s != "" && s[1..] == rest + core
    ensures s == ([s[0]] + rest) + core
  {
    assert s == [s[0]] + s[1..];
  }

  lemma {:induction false} TrimLeftSplits(p: char -> bool, s: string) returns (before: string)
    ensures s == before + TrimLeft(p, s)
    ensures All(p, before)
  {
    if s != "" && p(s[0]) {
      var rest := TrimLeftSplits(p, s[1..]);
      before := [s[0]] + rest;
      OneMore(s, rest, TrimLeft(p, s[1..]));
    } else {
      before := "";
    }
  }

  lemma {:induction false} TrimRightSplits(p: char -> bool, s: string) returns (after: string)
    ensures s == TrimRight(p, s) + after
    ensures All(p, after)
  {
    if s != "" && p(s[|s| - 1]) {
      var rest := TrimRightSplits(p, s[..|s| - 1]);
      after := rest + [s[|s| - 1]];
      assert s == s[..|s| - 1] + [s[|s| - 1]];
    } else {
      after := "";
    }
  }

  /** What `Trim` removed: `s` is cut-set runes, then the result, then cut-set runes. */
  lemma TrimSplits(p: char -> bool, s: string) returns (before: string, after: string)
    ensures s == before + Trim(p, s) + after
    ensures All(p, before) && All(p, after)
  {
    before := TrimLeftSplits(p, s);
    after := TrimRightSplits(p, TrimLeft(p, s));
    assert before + (Trim(p, s) + after) == (before + Trim(p, s)) + after;
  }

  lemma {:induction false} TrimLeftUnsplits(p: char -> bool, before: string, rest: string)
    requires All(p, before)
    requires rest != "" ==> !p(rest[0])
    ensures TrimLeft(p, before + rest) == rest
  {
    if before == "" {
      assert before + rest == rest;
    } else {
      assert (before + rest)[1..] == before[1..] + rest;
      TrimLeftUnsplits(p, before[1..], rest);
    }
  }

  lemma {:induction false} TrimRightUnsplits(p: char -> bool, rest: string, after: string)
    requires All(p, after)
    requires rest != "" ==> !p(rest[|rest| - 1])
    ensures TrimRight(p, rest + after) == rest
  {
    if after == "" {
      assert rest + after == rest;
    } else {
      var s := rest + after;
      assert s[..|s| - 1] == rest + after[..|after| - 1];
      TrimRightUnsplits(p, rest, after[..|after| - 1]);
    }
  }

  lemma TrimTwice(s: string)
    ensures IsTrimmed(IsSpace, TrimSpace(s)) && TrimSpace(TrimSpace(s)) == TrimSpace(s)
  {
    TrimmedIsFixed(IsSpace, TrimSpace(s));
  }

  lemma {:induction false} TrimRightKeepsHead(p: char -> bool, s: string)
    requires s != "" && !p(s[0])
    ensures TrimRight(p, s) != ""
  {
    if p(s[|s| - 1]) { TrimRightKeepsHead(p, s[..|s| - 1]); }
  }

  /** A string that starts with text loses only whitespace at its end. */
  lemma TrimEnd(s: string) returns (gap: string)
    requires s != "" && !IsSpace(s[0])
    ensures s == TrimSpace(s) + gap && All(IsSpace, gap)
    ensures TrimSpace(s) != ""
  {
    gap := TrimRightSplits(IsSpace, s);
    TrimRightKeepsHead(IsSpace, s);
  }

  /** Cut-set runes around a trimmed, non-empty core are exactly what `Trim` removes. */
  lemma TrimUnsplits(p: char -> bool, before: string, core: string, after: string)
    requires All(p, before) && All(p, after)
    requires IsTrimmed(p, core) && core != ""
    ensures Trim(p, before + core + after) == core
  {
    assert before + core + after == before + (core + after);
    TrimLeftUnsplits(p, before, core + after);
    TrimRightUnsplits(p, core, after);
  }

  /** Trimming changes a string only by shortening it. */
  lemma TrimShrinks(s: string)
    ensures TrimSpace(s) != s ==> |TrimSpace(s)| < |s|
    ensures !IsTrimmed(IsSpace, s) ==> |TrimSpace(s)| < |s|
  {
    var before, after := TrimSplits(IsSpace, s);
    if before == "" && after == "" { assert TrimSpace(s) == s; }
  }

  function LowerChar(c: char): char {
    if 'A' <= c <= 'Z' then (c as int + 32) as char else c
  }

  function Map(f: char -> char, s: string): (r: string)
    ensures |r| == |s|
  {
    seq(|s|, i requires 0 <= i < |s| => f(s[i]))
  }

  lemma MapFixed(f: char -> char, s: string)
    requires forall i | 0 <= i < |s| :: f(s[i]) == s[i]
    ensures Map(f, s) == s
  {
  }

  function Lower(s: string): string {
    Map(LowerChar, s)
  }

  lemma LowerFixed(s: string)
    requires forall i | 0 <= i < |s| :: !('A' <= s[i] <= 'Z')
    ensures Lower(s) == s
  {
    MapFixed(LowerChar, s);
  }

  /** `strings.Compare(a, b) < 0`. */
  predicate Less(a: string, b: string) {
    if b == "" then false
    else if a == "" then true
    else if a[0] != b[0] then a[0] < b[0]
    else Less(a[1..], b[1..])
  }

  lemma {:induction false} LessIrreflexive(a: string)
    ensures !Less(a, a)
  {
    if a != "" { LessIrreflexive(a[1..]); }
  }

  lemma {:induction false} LessTransitive(a: string, b: string, c: string)
    requires Less(a, b) && Less(b, c)
    ensures Less(a, c)
  {
    if a != "" && a[0] == b[0] && b[0] == c[0] { LessTransitive(a[1..], b[1..], c[1..]); }
  }

  lemma {:induction false} LessConnected(a: string, b: string)
    requires a != b
    ensures Less(a, b) || Less(b, a)
  {
    if a != "" && b != "" && a[0] == b[0] {
      assert a == [a[0]] + a[1..] && b == [b[0]] + b[1..];
      LessConnected(a[1..], b[1..]);
    }
  }

  /** Where two strings part: `a` ends there, or has the smaller rune. */
  predicate PartsAt(a: string, b: string, i: int) {
    0 <= i <= |a| && i < |b| && a[..i] == b[..i] && (i < |a| ==> a[i] < b[i])
  }

  /** The order is that of the first rune in which the strings differ, a prefix being the smaller one. */
  lemma {:induction false} LessIsLexicographic(a: string, b: string)
    ensures Less(a, b) <==> exists i :: PartsAt(a, b, i)
  {
    if a != "" && b != "" && a[0] == b[0] {
      LessIsLexicographic(a[1..], b[1..]);
      assert a == [a[0]] + a[1..] && b == [b[0]] + b[1..];
      if i :| PartsAt(a[1..], b[1..], i) {
        assert a[..i + 1] == [a[0]] + a[1..][..i] && b[..i + 1] == [b[0]] + b[1..][..i];
        assert PartsAt(a, b, i + 1);
      }
      if i :| PartsAt(a, b, i) {
        assert i > 0;
        assert a[1..][..i - 1] == a[..i][1..] && b[1..][..i - 1] == b[..i][1..];
        assert PartsAt(a[1..], b[1..], i - 1);
      }
    } else if b != "" {
      assert PartsAt(a, b, 0) <==> Less(a, b);
      forall i | PartsAt(a, b, i) ensures i == 0 {}
    }
  }

  /** Only the letters A to Z change, each to the small letter of its place in the alphabet. */
  lemma LowerLetters(s: string, i: nat)
    requires i < |s|
    ensures 'A' <= s[i] <= 'Z' ==> Lower(s)[i] as int - 'a' as int == s[i] as int - 'A' as int
    ensures !('A' <= s[i] <= 'Z') ==> Lower(s)[i] == s[i]
  {
    assert Lower(s)[i] == LowerChar(s[i]);
  }

  /** `strings.Contains`. */
  predicate Contains(s: string, sub: string) {
    exists i | 0 <= i <= |s| :: sub <= s[i..]
  }
}
