/** Model definitions, badges and pricing, and how two reports of one model are merged
    (definition_merge.go, source_model_badges.go). */
module EntryMerge {
  import opened Text
  import opened Ordering
  import opened ModelIdentity

  datatype Option<+T> = None | Some(value: T)

  // ---- Definitions ----------------------------------------------------------------------------

  datatype ContextSpec = ContextSpec(maxContextTokens: int, maxOutputTokens: int)

  /** Enumerations are their proto numbers, zero meaning unspecified. `others` are the remaining members
      of the definition's JSON form by key (category, lifecycle status and the like), as text; merging
      does not carry them over. */
  datatype ModelVersion = ModelVersion(
    vendorID: string,
    modelID: string,
    displayName: string,
    primaryShape: int,
    supportedShapes: seq<int>,
    capabilities: seq<int>,
    inputModalities: seq<int>,
    outputModalities: seq<int>,
    contextSpec: Option<ContextSpec>,
    aliases: seq<Alias>,
    others: map<string, string>)
  {
    function ContextTokens(): int {
      if contextSpec.Some? then contextSpec.value.maxContextTokens else 0
    }

    function OutputTokens(): int {
      if contextSpec.Some? then contextSpec.value.maxOutputTokens else 0
    }
  }

  function KindNumber(kind: AliasKind): int {
    match kind case Unspecified => 0 case Stable => 1 case Snapshot => 2
  }

  predicate AliasLess(a: Alias, b: Alias) {
    if a.kind != b.kind then KindNumber(a.kind) < KindNumber(b.kind) else Less(a.value, b.value)
  }

  lemma AliasesAreOrdered()
    ensures StrictTotal(AliasLess)
  {
    StringsAreOrdered();
  }

  /** The alias as stored: trimmed, and only if something is left. */
  function CleanAlias(alias: Alias): Option<Alias> {
    var value := TrimSpace(alias.value);
    if value == "" then None else Some(Alias(alias.kind, value))
  }

  /** The distinct stored aliases of a list, in order of first appearance. */
  function CleanAliases(aliases: seq<Alias>): (r: seq<Alias>)
    ensures forall a :: a in r <==> exists b :: b in aliases && CleanAlias(b) == Some(a)
    ensures Distinct(r)
  {
    hide CleanAlias;
    if aliases == [] then [] else
      var init := CleanAliases(aliases[..|aliases| - 1]);
      var last := aliases[|aliases| - 1];
      assert aliases == aliases[..|aliases| - 1] + [last];
      assert forall b :: b in aliases <==> b in aliases[..|aliases| - 1] || b == last;
      match CleanAlias(last)
      case None => init
      case Some(a) => if a in init then init else init + [a]
  }

  /** The union of two alias lists in canonical order. */
  function MergeAliases(left: seq<Alias>, right: seq<Alias>): seq<Alias> {
    SortUnique(AliasLess, CleanAliases(left + right))
  }

  lemma CleanAliasesSnoc(aliases: seq<Alias>, alias: Alias)
    ensures CleanAliases(aliases + [alias])
            == match CleanAlias(alias)
               case None => CleanAliases(aliases)
               case Some(a) => if a in CleanAliases(aliases) then CleanAliases(aliases) else CleanAliases(aliases) + [a]
  {
    hide CleanAlias;
    assert (aliases + [alias])[..|aliases|] == aliases;
  }

  lemma OneMoreAlias(before: seq<Alias>, aliases: seq<Alias>, i: nat)
    requires i < |aliases|
    ensures before + aliases[..i + 1] == (before + aliases[..i]) + [aliases[i]]
  {
  }

  method AppendAliases(out0: seq<Alias>, aliases: seq<Alias>, ghost before: seq<Alias>) returns (out: seq<Alias>)
    requires out0 == CleanAliases(before)
    ensures out == CleanAliases(before + aliases)
  {
    hide CleanAliases, TrimSpace;
    out := out0;
    assert before + aliases[..0] == before;
    for i := 0 to |aliases|
      invariant out == CleanAliases(before + aliases[..i])
    {
      CleanAliasesSnoc(before + aliases[..i], aliases[i]);
      OneMoreAlias(before, aliases, i);
      var value := TrimSpace(aliases[i].value);
      if value != "" {
        var alias := Alias(aliases[i].kind, value);
        if alias !in out { out := out + [alias]; }
      }
    }
    assert aliases[..|aliases|] == aliases;
  }

  method MergeDefinitionAliases(left: seq<Alias>, right: seq<Alias>) returns (out: seq<Alias>)
    ensures out == MergeAliases(left, right)
  {
    out := AppendAliases([], left, []);
    assert [] + left == left;
    out := AppendAliases(out, right, left);
    AliasesAreOrdered();
    out := SortDistinct(AliasLess, out);
  }

  /** `a` unless it is empty. */
  function Or<T(==)>(a: T, b: T, empty: T): T {
    if a != empty then a else b
  }

  function OrText(a: string, b: string): string {
    if Blank(a) && !Blank(b) then b else a
  }

  function MergeContext(primary: ModelVersion, fallback: ModelVersion): Option<ContextSpec> {
    if primary.contextSpec.None? && fallback.ContextTokens() == 0 && fallback.OutputTokens() == 0 then None
    else Some(ContextSpec(Or(primary.ContextTokens(), fallback.ContextTokens(), 0),
                          Or(primary.OutputTokens(), fallback.OutputTokens(), 0)))
  }

  /** The primary definition with its gaps filled from the fallback. */
  function MergeMetadata(primary: ModelVersion, fallback: ModelVersion): ModelVersion {
    ModelVersion(primary.vendorID, primary.modelID,
                 OrText(primary.displayName, fallback.displayName),
                 Or(primary.primaryShape, fallback.primaryShape, 0),
                 Or(primary.supportedShapes, fallback.supportedShapes, []),
                 Or(primary.capabilities, fallback.capabilities, []),
                 Or(primary.inputModalities, fallback.inputModalities, []),
                 Or(primary.outputModalities, fallback.outputModalities, []),
                 MergeContext(primary, fallback),
                 MergeAliases(primary.aliases, fallback.aliases),
                 map[])
  }

  function MergeDefinitions(primary: Option<ModelVersion>, fallback: Option<ModelVersion>): Option<ModelVersion> {
    if primary.None? then fallback
    else if fallback.None? then primary
    else Some(MergeMetadata(primary.value, fallback.value))
  }

  method FillContext(merged: ModelVersion, fallback: ModelVersion) returns (spec: Option<ContextSpec>)
    ensures spec == MergeContext(merged, fallback)
  {
    spec := merged.contextSpec;
    if merged.ContextTokens() == 0 && fallback.ContextTokens() != 0 {
      spec := Some(ContextSpec(fallback.ContextTokens(), merged.OutputTokens()));
    }
    if merged.OutputTokens() == 0 && fallback.OutputTokens() != 0 {
      var tokens := if spec.Some? then spec.value.maxContextTokens else 0;
      spec := Some(ContextSpec(tokens, fallback.OutputTokens()));
    }
  }

  method MergeDefinitionMetadata(primary: Option<ModelVersion>, fallback: Option<ModelVersion>)
    returns (r: Option<ModelVersion>)
    ensures r == MergeDefinitions(primary, fallback)
  {
    if primary.None? { return fallback; }
    if fallback.None? { return primary; }
    var p, f := primary.value, fallback.value;
    var merged := p.(aliases := [], others := map[]);
    merged := merged.(displayName := OrText(merged.displayName, f.displayName));
    var spec := FillContext(p, f);
    merged := merged.(contextSpec := spec);
    merged := merged.(primaryShape := Or(merged.primaryShape, f.primaryShape, 0));
    merged := merged.(supportedShapes := Or(merged.supportedShapes, f.supportedShapes, []));
    merged := merged.(capabilities := Or(merged.capabilities, f.capabilities, []));
    merged := merged.(inputModalities := Or(merged.inputModalities, f.inputModalities, []));
    merged := merged.(outputModalities := Or(merged.outputModalities, f.outputModalities, []));
    var aliases := MergeDefinitionAliases(p.aliases, f.aliases);
    r := Some(merged.(aliases := aliases));
  }

  lemma CleanAliasTwice(alias: Alias)
    requires CleanAlias(alias).Some?
    ensures CleanAlias(CleanAlias(alias).value) == CleanAlias(alias)
  {
    TrimTwice(alias.value);
  }

  /** The members of a merged list are the cleaned members of both lists. */
  lemma MergedAliasMembers(left: seq<Alias>, right: seq<Alias>)
    ensures forall a :: a in MergeAliases(left, right) <==> a in CleanAliases(left) || a in CleanAliases(right)
    ensures Sorted(AliasLess, MergeAliases(left, right))
  {
    AliasesAreOrdered();
    assert forall b :: b in left + right <==> b in left || b in right;
  }

  lemma CleanAliasesTwice(left: seq<Alias>, right: seq<Alias>)
    ensures forall a :: a in CleanAliases(MergeAliases(left, right)) <==> a in MergeAliases(left, right)
  {
    MergedAliasMembers(left, right);
    forall a | a in MergeAliases(left, right) ensures CleanAlias(a) == Some(a) {
      var b :| b in left + right && CleanAlias(b) == Some(a);
      CleanAliasTwice(b);
    }
  }

  lemma MergeAliasesAssociative(a: seq<Alias>, b: seq<Alias>, c: seq<Alias>)
    ensures MergeAliases(MergeAliases(a, b), c) == MergeAliases(a, MergeAliases(b, c))
  {
    AliasesAreOrdered();
    MergedAliasMembers(a, b);
    MergedAliasMembers(b, c);
    CleanAliasesTwice(a, b);
    CleanAliasesTwice(b, c);
    MergedAliasMembers(MergeAliases(a, b), c);
    MergedAliasMembers(a, MergeAliases(b, c));
    SortedIsUnique(AliasLess, MergeAliases(MergeAliases(a, b), c), MergeAliases(a, MergeAliases(b, c)));
  }

  /** Filling gaps is associative, so only the order of the reports matters, not the grouping. */
  lemma MergeDefinitionsAssociative(a: Option<ModelVersion>, b: Option<ModelVersion>, c: Option<ModelVersion>)
    ensures MergeDefinitions(MergeDefinitions(a, b), c) == MergeDefinitions(a, MergeDefinitions(b, c))
  {
    hide MergeAliases, Blank;
    if a.Some? && b.Some? && c.Some? {
      MergeAliasesAssociative(a.value.aliases, b.value.aliases, c.value.aliases);
    }
  }

  // ---- Badges -----------------------------------------------------------------------------------

  const BADGES: set<string> := {"exacto", "extended", "floor", "free", "nitro", "online", "thinking"}

  /** A known badge in its canonical spelling, or nothing. */
  function NormalizeBadge(badge: string): string {
    var b := TrimSpace(Lower(badge));
    if b in BADGES then b else ""
  }

  /** The distinct known badges of a list, in order of first appearance. */
  function KnownBadges(badges: seq<string>): (r: seq<string>)
    ensures forall b :: b in r <==> b != "" && exists x :: x in badges && NormalizeBadge(x) == b
    ensures Distinct(r)
  {
    if badges == [] then [] else
      var init, last := KnownBadges(badges[..|badges| - 1]), badges[|badges| - 1];
      assert forall x :: x in badges <==> x in badges[..|badges| - 1] || x == last;
      var b := NormalizeBadge(last);
      if b == "" || b in init then init else init + [b]
  }

  function NormalizeBadges(badges: seq<string>): seq<string> {
    SortUnique(Less, KnownBadges(badges))
  }

  function MergeBadges(left: seq<string>, right: seq<string>): seq<string> {
    NormalizeBadges(left + right)
  }

  method NormalizeDefinitionSourceBadges(badges: seq<string>) returns (out: seq<string>)
    ensures out == NormalizeBadges(badges)
  {
    out := [];
    var seen: set<string> := {};
    for i := 0 to |badges|
      invariant out == KnownBadges(badges[..i])
      invariant forall b :: b in seen <==> b in out
    {
      assert badges[..i + 1][..i] == badges[..i];
      var badge := NormalizeBadge(badges[i]);
      if badge != "" && badge !in seen {
        seen := seen + {badge};
        out := out + [badge];
      }
    }
    assert badges[..|badges|] == badges;
    StringsAreOrdered();
    out := SortDistinct(Less, out);
  }

  lemma KnownBadgeIsFixed(badge: string)
    requires badge in BADGES
    ensures NormalizeBadge(badge) == badge
  {
    assert forall i | 0 <= i < |badge| :: 'a' <= badge[i] <= 'z' by {
      assert "exacto" == ['e', 'x', 'a', 'c', 't', 'o'] && "extended" == ['e', 'x', 't', 'e', 'n', 'd', 'e', 'd'];
    }
    LowerFixed(badge);
    TrimmedIsFixed(IsSpace, badge);
  }

  lemma NormalizeBadgesTwice(badges: seq<string>)
    ensures NormalizeBadges(NormalizeBadges(badges)) == NormalizeBadges(badges)
  {
    StringsAreOrdered();
    var n := NormalizeBadges(badges);
    forall b | b in n ensures NormalizeBadge(b) == b { KnownBadgeIsFixed(b); }
    SortUniqueBySet(Less, KnownBadges(n), KnownBadges(badges));
  }

  lemma MergedBadgeMembers(left: seq<string>, right: seq<string>)
    ensures forall b :: b in MergeBadges(left, right) <==> b in NormalizeBadges(left) || b in NormalizeBadges(right)
  {
    StringsAreOrdered();
    assert forall x :: x in left + right <==> x in left || x in right;
  }

  // ---- Pricing ----------------------------------------------------------------------------------

  datatype PricingSummary = PricingSummary(
    input: string, output: string, cacheReadInput: string, cacheWriteInput: string, reasoning: string,
    imageInput: string, audioInput: string, audioOutput: string, request: string, currency: string, priceType: int)

  datatype PriceField = Input | Output | CacheReadInput | CacheWriteInput | Reasoning | ImageInput | AudioInput
      | AudioOutput | Request | Currency

  function Price(pricing: Option<PricingSummary>, field: PriceField): string {
    match pricing
    case None => ""
    case Some(p) =>
      match field
      case Input => p.input case Output => p.output case CacheReadInput => p.cacheReadInput
      case CacheWriteInput => p.cacheWriteInput case Reasoning => p.reasoning case ImageInput => p.imageInput
      case AudioInput => p.audioInput case AudioOutput => p.audioOutput case Request => p.request
      case Currency => p.currency
  }

  function PriceType(pricing: Option<PricingSummary>): int {
    if pricing.Some? then pricing.value.priceType else 0
  }

  predicate NamesAPrice(p: PricingSummary) {
    exists field: PriceField :: field != Currency && Price(Some(p), field) != ""
  }

  function TrimPrices(p: PricingSummary): PricingSummary {
    PricingSummary(TrimSpace(p.input), TrimSpace(p.output), TrimSpace(p.cacheReadInput), TrimSpace(p.cacheWriteInput),
                   TrimSpace(p.reasoning), TrimSpace(p.imageInput), TrimSpace(p.audioInput), TrimSpace(p.audioOutput),
                   TrimSpace(p.request), TrimSpace(p.currency), p.priceType)
  }

  /** A summary that names no price is no summary, even if it names a currency. */
  function NormalizePricing(pricing: Option<PricingSummary>): Option<PricingSummary> {
    if pricing.None? then None
    else if NamesAPrice(TrimPrices(pricing.value)) then Some(TrimPrices(pricing.value))
    else None
  }

  function FillPrices(p: PricingSummary, f: PricingSummary): PricingSummary {
    PricingSummary(Or(p.input, f.input, ""), Or(p.output, f.output, ""), Or(p.cacheReadInput, f.cacheReadInput, ""),
                   Or(p.cacheWriteInput, f.cacheWriteInput, ""), Or(p.reasoning, f.reasoning, ""),
                   Or(p.imageInput, f.imageInput, ""), Or(p.audioInput, f.audioInput, ""),
                   Or(p.audioOutput, f.audioOutput, ""), Or(p.request, f.request, ""),
                   Or(p.currency, f.currency, ""), Or(p.priceType, f.priceType, 0))
  }

  function MergePricing(primary: Option<PricingSummary>, fallback: Option<PricingSummary>): Option<PricingSummary> {
    var p, f := NormalizePricing(primary), NormalizePricing(fallback);
    if p.None? then f else if f.None? then p else Some(FillPrices(p.value, f.value))
  }

  lemma TrimPricesTwice(p: PricingSummary)
    ensures TrimPrices(TrimPrices(p)) == TrimPrices(p)
  {
    TrimTwice(p.input); TrimTwice(p.output); TrimTwice(p.cacheReadInput); TrimTwice(p.cacheWriteInput);
    TrimTwice(p.reasoning); TrimTwice(p.imageInput); TrimTwice(p.audioInput); TrimTwice(p.audioOutput);
    TrimTwice(p.request); TrimTwice(p.currency);
  }

  predicate IsNormal(p: Option<PricingSummary>) {
    p.Some? ==> TrimPrices(p.value) == p.value && NamesAPrice(p.value)
  }

  lemma NormalizedIsNormal(p: Option<PricingSummary>)
    ensures IsNormal(NormalizePricing(p))
  {
    if p.Some? { TrimPricesTwice(p.value); }
  }

  lemma FilledIsTrimmed(p: PricingSummary, f: PricingSummary)
    requires TrimPrices(p) == p && TrimPrices(f) == f
    ensures TrimPrices(FillPrices(p, f)) == FillPrices(p, f)
  {
  }

  lemma FilledNamesAPrice(p: PricingSummary, f: PricingSummary)
    requires NamesAPrice(p)
    ensures NamesAPrice(FillPrices(p, f))
  {
    var field :| field != Currency && Price(Some(p), field) != "";
    assert Price(Some(FillPrices(p, f)), field) == Price(Some(p), field);
  }

  lemma FilledIsNormal(p: PricingSummary, f: PricingSummary)
    requires IsNormal(Some(p)) && IsNormal(Some(f))
    ensures IsNormal(Some(FillPrices(p, f)))
  {
    FilledIsTrimmed(p, f);
    FilledNamesAPrice(p, f);
  }

  lemma MergedIsNormal(primary: Option<PricingSummary>, fallback: Option<PricingSummary>)
    ensures IsNormal(MergePricing(primary, fallback))
  {
    NormalizedIsNormal(primary);
    NormalizedIsNormal(fallback);
    if NormalizePricing(primary).Some? && NormalizePricing(fallback).Some? {
      FilledIsNormal(NormalizePricing(primary).value, NormalizePricing(fallback).value);
    }
  }

  method MergePricingSummary(primary: Option<PricingSummary>, fallback: Option<PricingSummary>)
    returns (r: Option<PricingSummary>)
    ensures r == MergePricing(primary, fallback)
  {
    var p, f := NormalizePricing(primary), NormalizePricing(fallback);
    NormalizedIsNormal(fallback);
    MergedIsNormal(primary, fallback);
    if p.None? { return NormalizePricing(f); }
    if f.None? { return p; }
    var out, src := p.value, f.value;
    out := out.(input := Or(out.input, src.input, ""));
    out := out.(output := Or(out.output, src.output, ""));
    out := out.(cacheReadInput := Or(out.cacheReadInput, src.cacheReadInput, ""));
    out := out.(cacheWriteInput := Or(out.cacheWriteInput, src.cacheWriteInput, ""));
    out := out.(reasoning := Or(out.reasoning, src.reasoning, ""));
    out := out.(imageInput := Or(out.imageInput, src.imageInput, ""));
    out := out.(audioInput := Or(out.audioInput, src.audioInput, ""));
    out := out.(audioOutput := Or(out.audioOutput, src.audioOutput, ""));
    out := out.(request := Or(out.request, src.request, ""));
    out := out.(currency := Or(out.currency, src.currency, ""));
    if out.priceType == 0 { out := out.(priceType := src.priceType); }
    assert out == FillPrices(p.value, src);
    r := NormalizePricing(Some(out));
  }

  /** Per field, the primary's price if it has one, else the fallback's. */
  lemma MergedPrice(primary: Option<PricingSummary>, fallback: Option<PricingSummary>, field: PriceField)
    ensures Price(MergePricing(primary, fallback), field)
            == Or(Price(NormalizePricing(primary), field), Price(NormalizePricing(fallback), field), "")
    ensures PriceType(MergePricing(primary, fallback))
            == Or(PriceType(NormalizePricing(primary)), PriceType(NormalizePricing(fallback)), 0)
  {
    NormalizedIsNormal(fallback);
  }

  lemma FillAssociative(a: PricingSummary, b: PricingSummary, c: PricingSummary)
    ensures FillPrices(FillPrices(a, b), c) == FillPrices(a, FillPrices(b, c))
  {
  }

  lemma MergePricingAssociative(a: Option<PricingSummary>, b: Option<PricingSummary>, c: Option<PricingSummary>)
    ensures MergePricing(MergePricing(a, b), c) == MergePricing(a, MergePricing(b, c))
  {
    MergedIsNormal(a, b);
    MergedIsNormal(b, c);
    NormalizedIsNormal(a);
    NormalizedIsNormal(c);
    if NormalizePricing(a).Some? && NormalizePricing(b).Some? && NormalizePricing(c).Some? {
      FillAssociative(NormalizePricing(a).value, NormalizePricing(b).value, NormalizePricing(c).value);
    }
  }
}
