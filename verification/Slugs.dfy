/** Slug normalisation of vendor and model identifiers (modelidentity/identity.go). */
module Slugs {
  import opened Text

  predicate IsDash(c: char) { c == '-' }

  predicate HasDashPair(s: string) {
    exists i | 0 <= i < |s| - 1 :: s[i] == '-' && s[i + 1] == '-'
  }

  /** `strings.ReplaceAll(s, "--", "-")`: pairs are matched left to right without overlap. */
  function ReplaceDashPairs(s: string): (r: string)
    ensures |r| <= |s|
    ensures HasDashPair(s) ==> |r| < |s|
  {
    if |s| >= 2 && s[0] == '-' && s[1] == '-' then ['-'] + ReplaceDashPairs(s[2..])
    else if s == "" then ""
    else
      assert HasDashPair(s) ==> HasDashPair(s[1..]) by {
        if HasDashPair(s) {
          var i :| 0 <= i < |s| - 1 && s[i] == '-' && s[i + 1] == '-';
          assert s[1..][i - 1] == '-' && s[1..][i] == '-';
        }
      }
      [s[0]] + ReplaceDashPairs(s[1..])
  }

  /** Every run of dashes becomes one dash. */
  function Collapse(s: string): (r: string)
    ensures |r| <= |s|
  {
    if |s| < 2 then s
    else if s[0] == '-' && s[1] == '-' then Collapse(s[1..])
    else [s[0]] + Collapse(s[1..])
  }

  lemma CollapseStep(s: string)
    requires |s| >= 2
    ensures Collapse(s) == (if s[0] == '-' && s[1] == '-' then "" else [s[0]]) + Collapse(s[1..])
  {
    assert "" + Collapse(s[1..]) == Collapse(s[1..]);
  }

  lemma CollapseOne(s: string)
    requires |s| == 1
    ensures Collapse(s) == s
  {
  }

  lemma PairBehind(c: char, t: string)
    requires !HasDashPair(t) && (c != '-' || t == "" || t[0] != '-')
    ensures !HasDashPair([c] + t)
  {
    var s := [c] + t;
    forall i | 0 <= i < |s| - 1 ensures !(s[i] == '-' && s[i + 1] == '-') {
      if i > 0 { assert s[i] == t[i - 1] && s[i + 1] == t[i]; }
    }
  }

  /** No dash pair is left, the ends stay, and no rune is new. */
  lemma {:induction false} CollapseShape(s: string)
    ensures var r := Collapse(s);
            && !HasDashPair(r) && (s == "" <==> r == "")
            && (s != "" ==> r != "" && r[0] == s[0] && r[|r| - 1] == s[|s| - 1])
            && forall c :: c in r ==> c in s
  {
    if |s| >= 2 {
      CollapseStep(s);
      CollapseShape(s[1..]);
      hide Collapse, HasDashPair;
      var rest := Collapse(s[1..]);
      assert rest[0] == s[1];
      assert s == [s[0]] + s[1..];
      if s[0] == '-' && s[1] == '-' {
        assert "" + rest == rest;
      } else {
        PairBehind(s[0], rest);
      }
    }
  }

  lemma {:induction false} CollapseFixed(s: string)
    requires !HasDashPair(s)
    ensures Collapse(s) == s
  {
    if |s| >= 2 {
      assert !(s[0] == '-' && s[1] == '-');
      forall i | 0 <= i < |s[1..]| - 1 ensures !(s[1..][i] == '-' && s[1..][i + 1] == '-') {
        assert s[1..][i] == s[i + 1] && s[1..][i + 1] == s[i + 2];
      }
      CollapseFixed(s[1..]);
      assert s == [s[0]] + s[1..];
    }
  }

  /** What is prepended collapses alike before strings that do. */
  lemma CollapseUnder(c: char, s: string, t: string)
    requires Collapse(s) == Collapse(t) && (s == "" <==> t == "") && (s != "" ==> s[0] == t[0])
    ensures Collapse([c] + s) == Collapse([c] + t)
  {
    hide Collapse;
    if s != "" {
      var u, v := [c] + s, [c] + t;
      assert u[1..] == s && v[1..] == t && u[1] == v[1];
      CollapseStep(u);
      CollapseStep(v);
    }
  }

  lemma ReplaceStep(s: string)
    requires s != ""
    ensures var n := if |s| >= 2 && s[0] == '-' && s[1] == '-' then 2 else 1;
            ReplaceDashPairs(s) == [s[0]] + ReplaceDashPairs(s[n..])
  {
  }

  lemma {:induction false} CollapseIgnoresPairs(s: string)
    ensures Collapse(ReplaceDashPairs(s)) == Collapse(s)
    ensures s != "" ==> ReplaceDashPairs(s) != "" && ReplaceDashPairs(s)[0] == s[0]
    decreases |s|
  {
    if s != "" {
      ReplaceStep(s);
      hide Collapse, ReplaceDashPairs;
      if |s| >= 2 && s[0] == '-' && s[1] == '-' {
        CollapseIgnoresPairs(s[2..]);
        CollapseUnder('-', s[2..], ReplaceDashPairs(s[2..]));
        CollapseStep(s);
        assert s[1..] == ['-'] + s[2..];
      } else {
        CollapseIgnoresPairs(s[1..]);
        CollapseUnder(s[0], s[1..], ReplaceDashPairs(s[1..]));
        assert s == [s[0]] + s[1..];
      }
    }
  }

  /** The collapse loop both normalisers share; each round shortens the string. */
  method CollapseDashes(raw: string) returns (r: string)
    ensures r == Collapse(raw)
  {
    r := raw;
    while HasDashPair(r)
      invariant Collapse(r) == Collapse(raw)
      decreases |r|
    {
      CollapseIgnoresPairs(r);
      r := ReplaceDashPairs(r);
    }
    CollapseFixed(r);
  }

  lemma ConcatHead(a: string, b: string)
    requires a != ""
    ensures (a + b)[0] == a[0] && (a + b)[1..] == a[1..] + b && (|a| >= 2 ==> (a + b)[1] == a[1])
    ensures |a| == 1 ==> (a + b)[1..] == b
  {
  }

  lemma ConcatAssociates(a: string, b: string, c: string)
    ensures a + (b + c) == (a + b) + c
  {
  }

  lemma {:induction false} CollapseConcat(a: string, b: string)
    requires a == "" || b == "" || a[|a| - 1] != '-' || b[0] != '-'
    ensures Collapse(a + b) == Collapse(a) + Collapse(b)
  {
    if a == "" {
      assert a + b == b;
    } else if b == "" {
      assert a + b == a;
    } else {
      hide Collapse;
      ConcatHead(a, b);
      CollapseStep(a + b);
      if |a| == 1 {
        CollapseOne(a);
      } else {
        CollapseConcat(a[1..], b);
        CollapseStep(a);
        ConcatAssociates(if a[0] == '-' && a[1] == '-' then "" else [a[0]], Collapse(a[1..]), Collapse(b));
      }
    }
  }

  lemma {:induction false} CollapseDashRun(d: string)
    requires All(IsDash, d)
    ensures Collapse(d) == if d == "" then "" else "-"
  {
    if |d| >= 2 {
      assert IsDash(d[0]) && IsDash(d[1]);
      CollapseDashRun(d[1..]);
    } else if |d| == 1 {
      assert IsDash(d[0]);
    }
  }

  lemma SingleDash()
    ensures Trim(IsDash, "-") == "" && Trim(IsDash, "") == "" && Collapse("") == ""
  {
  }

  /** Collapsing runs and trimming edge dashes commute. */
  lemma TrimCollapseCommute(s: string)
    ensures Trim(IsDash, Collapse(s)) == Collapse(Trim(IsDash, s))
  {
    hide TrimLeft, TrimRight, Trim, Collapse, HasDashPair;
    var core := Trim(IsDash, s);
    var before, after := TrimSplits(IsDash, s);
    CollapseDashRun(before);
    CollapseDashRun(after);
    CollapseShape(core);
    if core == "" {
      assert s == before + after && All(IsDash, s);
      CollapseDashRun(s);
      SingleDash();
    } else {
      CollapseConcat(core, after);
      assert s == before + (core + after);
      CollapseConcat(before, core + after);
      TrimUnsplits(IsDash, Collapse(before), Collapse(core), Collapse(after));
      assert Collapse(s) == Collapse(before) + Collapse(core) + Collapse(after);
    }
  }

  lemma {:induction false} TrimLeftMap(p: char -> bool, q: char -> bool, f: char -> char, s: string)
    requires forall c :: p(f(c)) <==> q(c)
    ensures TrimLeft(p, Map(f, s)) == Map(f, TrimLeft(q, s))
  {
    if s != "" && q(s[0]) {
      assert Map(f, s)[1..] == Map(f, s[1..]);
      TrimLeftMap(p, q, f, s[1..]);
    }
  }

  lemma {:induction false} TrimRightMap(p: char -> bool, q: char -> bool, f: char -> char, s: string)
    requires forall c :: p(f(c)) <==> q(c)
    ensures TrimRight(p, Map(f, s)) == Map(f, TrimRight(q, s))
  {
    if s != "" && q(s[|s| - 1]) {
      assert Map(f, s)[..|s| - 1] == Map(f, s[..|s| - 1]);
      TrimRightMap(p, q, f, s[..|s| - 1]);
    }
  }

  lemma TrimMap(p: char -> bool, q: char -> bool, f: char -> char, s: string)
    requires forall c :: p(f(c)) <==> q(c)
    ensures Trim(p, Map(f, s)) == Map(f, Trim(q, s))
  {
    TrimLeftMap(p, q, f, s);
    TrimRightMap(p, q, f, TrimLeft(q, s));
  }

  /** Which runes a normaliser turns into dashes. `Model` keeps the dot. */
  datatype Style = Vendor | Model

  predicate Separator(style: Style, c: char) {
    c == '_' || c == ' ' || c == '/' || (style.Vendor? && c == '.')
  }

  function Dash(style: Style): char -> char {
    c => if Separator(style, c) then '-' else c
  }

  /** Trim, replace and collapse, in the order `NormalizedVendorSlug` does it. */
  function Slug(style: Style, raw: string): string {
    Collapse(Trim(IsDash, Map(Dash(style), TrimSpace(Lower(raw)))))
  }

  function VendorSlug(raw: string): string {
    Slug(Vendor, raw)
  }

  /** `NormalizeExternalModelSlug` before its last switch: collapse first, then trim dashes. */
  function ModelBase(raw: string): string {
    Trim(IsDash, Collapse(Map(Dash(Model), TrimSpace(Lower(raw)))))
  }

  function QwenFamily(s: string): string {
    if "qwen-3-" <= s then "qwen3-" + s[7..]
    else if "qwen-3." <= s then "qwen3." + s[7..]
    else s
  }

  function ModelSlug(raw: string): string {
    QwenFamily(ModelBase(raw))
  }

  method NormalizedVendorSlug(raw: string) returns (slug: string)
    ensures slug == VendorSlug(raw)
  {
    slug := Trim(IsDash, Map(Dash(Vendor), TrimSpace(Lower(raw))));
    slug := CollapseDashes(slug);
  }

  method NormalizeExternalModelSlug(raw: string) returns (slug: string)
    ensures slug == ModelSlug(raw)
  {
    slug := CollapseDashes(Map(Dash(Model), TrimSpace(Lower(raw))));
    slug := QwenFamily(Trim(IsDash, slug));
  }

  lemma ModelBaseIsSlug(raw: string)
    ensures ModelBase(raw) == Slug(Model, raw)
  {
    TrimCollapseCommute(Map(Dash(Model), TrimSpace(Lower(raw))));
  }

  /** What both normalisers promise of their results. */
  predicate IsSlug(style: Style, s: string) {
    && !HasDashPair(s)
    && IsTrimmed(IsDash, s)
    && forall c | c in s :: !Separator(style, c) && !('A' <= c <= 'Z')
  }

  lemma TrimKeepsRunes(p: char -> bool, s: string)
    ensures forall c :: c in Trim(p, s) ==> c in s
  {
    var before, after := TrimSplits(p, s);
  }

  lemma QwenFamilyIsCanonical(s: string)
    requires IsSlug(Model, s)
    ensures IsSlug(Model, QwenFamily(s))
    ensures !("qwen-3-" <= QwenFamily(s)) && !("qwen-3." <= QwenFamily(s))
    ensures s != ""
            ==> QwenFamily(s) != "" && QwenFamily(s)[0] == s[0] && QwenFamily(s)[|QwenFamily(s)| - 1] == s[|s| - 1]
  {
    var r := QwenFamily(s);
    if "qwen-3-" <= s || "qwen-3." <= s {
      var head := if "qwen-3-" <= s then "qwen3-" else "qwen3.";
      assert r == head + s[7..] && r[5] == s[6] && r[4] == '3';
      forall i | 5 <= i < |r| ensures r[i] == s[i + 1] {}
      forall i | 0 <= i < |r| - 1 ensures !(r[i] == '-' && r[i + 1] == '-') {
        if i >= 5 { assert !(s[i + 1] == '-' && s[i + 2] == '-'); }
      }
      assert s[|s| - 1] != '-';
      forall c | c in r ensures !Separator(Model, c) && !('A' <= c <= 'Z') {
        var i :| 0 <= i < |r| && r[i] == c;
        assert i < 6 || c == s[i + 1];
      }
    }
  }

  /** The shape of every vendor and model slug. */
  lemma SlugsAreCanonical(raw: string)
    ensures IsSlug(Vendor, VendorSlug(raw)) && IsSlug(Model, ModelSlug(raw))
  {
    SlugIsCanonical(Vendor, raw);
    SlugIsCanonical(Model, raw);
    ModelBaseIsSlug(raw);
    QwenFamilyIsCanonical(ModelBase(raw));
  }

  /** The runes a normaliser removes from the edges: dashes and what it turns into dashes. */
  function Edge(style: Style): char -> bool {
    c => IsDash(c) || Separator(style, c)
  }

  /** What is left of an identifier once edge whitespace and then edge separators are dropped. */
  function Core(style: Style, raw: string): string {
    Trim(Edge(style), TrimSpace(raw))
  }

  /** No whitespace hides behind the separators that the normaliser strips last. */
  predicate Stable(style: Style, raw: string) {
    IsTrimmed(IsSpace, Core(style, raw))
  }

  lemma LowerTrim(s: string)
    ensures TrimSpace(Lower(s)) == Lower(TrimSpace(s))
  {
    TrimMap(IsSpace, IsSpace, LowerChar, s);
  }

  lemma LowerTrimEdge(style: Style, s: string)
    ensures Trim(Edge(style), Lower(s)) == Lower(Trim(Edge(style), s))
  {
    TrimMap(Edge(style), Edge(style), LowerChar, s);
  }

  lemma DashTrim(style: Style, s: string)
    ensures Trim(IsDash, Map(Dash(style), s)) == Map(Dash(style), Trim(Edge(style), s))
  {
    TrimMap(IsDash, Edge(style), Dash(style), s);
  }

  predicate CleanRune(style: Style, c: char) {
    !Separator(style, c) && !('A' <= c <= 'Z')
  }

  lemma MappedIsClean(style: Style, s: string)
    ensures forall c | c in Map(Dash(style), Lower(s)) :: CleanRune(style, c)
  {
    var low := Lower(s);
    var mapped := Map(Dash(style), low);
    forall c | c in mapped ensures CleanRune(style, c) {
      var i :| 0 <= i < |mapped| && mapped[i] == c;
      assert low[i] == LowerChar(s[i]) && c == Dash(style)(low[i]);
    }
  }

  lemma SlugIsCanonical(style: Style, raw: string)
    ensures IsSlug(style, Slug(style, raw))
  {
    hide TrimSpace, Trim, HasDashPair, Collapse, Map, Lower, Separator;
    LowerTrim(raw);
    var mapped := Map(Dash(style), TrimSpace(Lower(raw)));
    MappedIsClean(style, TrimSpace(raw));
    TrimKeepsRunes(IsDash, mapped);
    CollapseShape(Trim(IsDash, mapped));
    forall c | c in Slug(style, raw) ensures !Separator(style, c) && !('A' <= c <= 'Z') { assert c in mapped; }
  }

  lemma SlugOfCore(style: Style, raw: string)
    ensures Slug(style, raw) == Collapse(Map(Dash(style), Lower(Core(style, raw))))
  {
    LowerTrim(raw);
    DashTrim(style, Lower(TrimSpace(raw)));
    LowerTrimEdge(style, TrimSpace(raw));
  }

  lemma SpaceSurvives(style: Style, c: char)
    requires c != ' '
    ensures IsSpace(Dash(style)(LowerChar(c))) <==> IsSpace(c)
  {
  }

  lemma MapAt(style: Style, s: string, i: nat)
    requires i < |s|
    ensures Map(Dash(style), Lower(s))[i] == Dash(style)(LowerChar(s[i]))
  {
  }

  /** The edges of a slug are whitespace exactly when the edges of the core are. */
  lemma SlugTrimmedIffStable(style: Style, raw: string)
    ensures IsTrimmed(IsSpace, Slug(style, raw)) <==> Stable(style, raw)
  {
    SlugOfCore(style, raw);
    var core := Core(style, raw);
    var mapped := Map(Dash(style), Lower(core));
    hide TrimSpace, Trim, Collapse, HasDashPair, Map, Slug;
    CollapseShape(mapped);
    if core != "" {
      var n := |core| - 1;
      assert !Edge(style)(core[0]) && !Edge(style)(core[n]);
      MapAt(style, core, 0);
      MapAt(style, core, n);
      SpaceSurvives(style, core[0]);
      SpaceSurvives(style, core[n]);
    }
  }

  lemma CanonicalIsFixed(style: Style, s: string)
    requires IsSlug(style, s) && IsTrimmed(IsSpace, s)
    ensures Slug(style, s) == s
  {
    forall i | 0 <= i < |s| ensures LowerChar(s[i]) == s[i] && Dash(style)(s[i]) == s[i] {
      assert s[i] in s;
    }
    assert Lower(s) == s && Map(Dash(style), s) == s;
    TrimmedIsFixed(IsSpace, s);
    TrimmedIsFixed(IsDash, s);
    CollapseFixed(s);
  }

  /** A word of lower-case letters is its own slug. */
  lemma WordIsFixed(style: Style, s: string)
    requires s != "" && forall i | 0 <= i < |s| :: 'a' <= s[i] <= 'z'
    ensures Slug(style, s) == s && TrimSpace(s) == s
  {
    assert forall c | c in s :: 'a' <= c <= 'z';
    hide Slug, TrimSpace;
    TrimmedIsFixed(IsSpace, s);
    CanonicalIsFixed(style, s);
  }

  lemma SlugShrinks(style: Style, s: string)
    requires !IsTrimmed(IsSpace, s)
    ensures |Slug(style, s)| < |s|
  {
    LowerTrim(s);
    TrimShrinks(s);
  }

  /** Vendor slugs are fixed points of the normaliser exactly for stable identifiers. */
  lemma VendorSlugIdempotentIff(raw: string)
    ensures VendorSlug(VendorSlug(raw)) == VendorSlug(raw) <==> Stable(Vendor, raw)
  {
    var s := VendorSlug(raw);
    SlugTrimmedIffStable(Vendor, raw);
    SlugsAreCanonical(raw);
    if Stable(Vendor, raw) { CanonicalIsFixed(Vendor, s); } else { SlugShrinks(Vendor, s); }
  }

  lemma QwenFamilyShrinks(s: string)
    ensures |QwenFamily(s)| <= |s|
  {
  }

  /** The edges of a model slug are whitespace exactly when the edges of its base are. */
  lemma ModelSlugTrimmedIffStable(raw: string)
    ensures IsTrimmed(IsSpace, ModelSlug(raw)) <==> Stable(Model, raw)
  {
    SlugTrimmedIffStable(Model, raw);
    ModelBaseIsSlug(raw);
    SlugIsCanonical(Model, raw);
    QwenFamilyIsCanonical(ModelBase(raw));
    if ModelBase(raw) == "" { assert ModelSlug(raw) == ""; }
  }

  lemma ModelSlugIdempotentIff(raw: string)
    ensures ModelSlug(ModelSlug(raw)) == ModelSlug(raw) <==> Stable(Model, raw)
  {
    var s := ModelSlug(raw);
    ModelSlugTrimmedIffStable(raw);
    ModelBaseIsSlug(s);
    if Stable(Model, raw) {
      ModelSlugsHaveNoQwenPrefix(raw);
      CanonicalIsFixed(Model, s);
    } else {
      SlugShrinks(Model, s);
      QwenFamilyShrinks(ModelBase(s));
    }
  }

  /** With U+0020 as the only whitespace every identifier is stable. */
  lemma SpacesOnlyIsStable(style: Style, raw: string)
    requires forall c | c in raw :: IsSpace(c) ==> c == ' '
    ensures Stable(style, raw)
  {
    TrimKeepsRunes(IsSpace, raw);
    TrimKeepsRunes(Edge(style), TrimSpace(raw));
    var core := Core(style, raw);
    if core != "" {
      assert core[0] in core && core[|core| - 1] in core;
      assert !Edge(style)(core[0]) && !Edge(style)(core[|core| - 1]);
    }
  }

  /** So both normalisers are idempotent on such identifiers, the `qwen-3` rewrite included. */
  lemma SpacesOnlyIsIdempotent(raw: string)
    requires forall c | c in raw :: IsSpace(c) ==> c == ' '
    ensures VendorSlug(VendorSlug(raw)) == VendorSlug(raw) && ModelSlug(ModelSlug(raw)) == ModelSlug(raw)
  {
    SpacesOnlyIsStable(Vendor, raw);
    SpacesOnlyIsStable(Model, raw);
    hide Stable, VendorSlug, ModelSlug;
    VendorSlugIdempotentIff(raw);
    ModelSlugIdempotentIff(raw);
  }

  lemma ModelSlugsHaveNoQwenPrefix(raw: string)
    ensures IsSlug(Model, ModelSlug(raw))
    ensures !("qwen-3-" <= ModelSlug(raw)) && !("qwen-3." <= ModelSlug(raw))
  {
    SlugIsCanonical(Model, raw);
    ModelBaseIsSlug(raw);
    QwenFamilyIsCanonical(ModelBase(raw));
  }

  /** A tab behind an edge dash survives the first pass and not the second. */
  lemma TabBehindDashBreaksIdempotence()
    ensures !Stable(Vendor, "-\tfoo") && !Stable(Model, "-\tfoo")
    ensures VendorSlug(VendorSlug("-\tfoo")) != VendorSlug("-\tfoo")
  {
    TrimmedIsFixed(IsSpace, "-\tfoo");
    TrimUnsplits(Edge(Vendor), "-", "\tfoo", "");
    TrimUnsplits(Edge(Model), "-", "\tfoo", "");
    assert "-" + "\tfoo" + "" == "-\tfoo";
    VendorSlugIdempotentIff("-\tfoo");
  }

  lemma QwenFamilyAddsNoSpace(s: string)
    requires forall c | c in s :: !IsSpace(c)
    ensures forall c | c in QwenFamily(s) :: !IsSpace(c)
  {
    var r := QwenFamily(s);
    if "qwen-3-" <= s || "qwen-3." <= s {
      var head := if "qwen-3-" <= s then "qwen3-" else "qwen3.";
      assert r == head + s[7..];
      assert forall i | 0 <= i < 6 :: !IsSpace(head[i]);
      forall c | c in r ensures !IsSpace(c) {
        var i :| 0 <= i < |r| && r[i] == c;
        if i >= 6 { assert c == s[i + 1] && s[i + 1] in s; }
      }
    }
  }

  /** Without whitespace other than U+0020 a slug has none at all. */
  lemma SpacesOnlySlugHasNoSpace(raw: string)
    requires forall c | c in raw :: IsSpace(c) ==> c == ' '
    ensures forall c | c in ModelSlug(raw) :: !IsSpace(c)
  {
    var low := Lower(raw);
    forall c | c in low ensures IsSpace(c) ==> c == ' ' {
      var i :| 0 <= i < |low| && low[i] == c;
      assert c == LowerChar(raw[i]) && raw[i] in raw;
    }
    TrimKeepsRunes(IsSpace, low);
    var trimmed := TrimSpace(low);
    var mapped := Map(Dash(Model), trimmed);
    forall c | c in mapped ensures !IsSpace(c) {
      var i :| 0 <= i < |mapped| && mapped[i] == c;
      assert c == Dash(Model)(trimmed[i]) && trimmed[i] in trimmed;
    }
    hide Collapse, TrimSpace, QwenFamily;
    CollapseShape(mapped);
    TrimKeepsRunes(IsDash, Collapse(mapped));
    hide Trim;
    QwenFamilyAddsNoSpace(ModelBase(raw));
  }
}
