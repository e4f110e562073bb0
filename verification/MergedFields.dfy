/** Prices, badges, aliases and definitions on raw inputs: what normalising keeps of them, and what merging
    two of them leaves (source_model_badges.go, definition_merge.go). */
module MergedFields {
  import opened Text
  import opened Ordering
  import opened ModelIdentity
  import opened EntryMerge

  // ---- Prices -----------------------------------------------------------------------------------

  /** Some field besides the currency says something. */
  ghost predicate Usable(pricing: Option<PricingSummary>) {
    pricing.Some? && exists field: PriceField :: field != Currency && !Blank(Price(pricing, field))
  }

  lemma TrimmedFields(p: PricingSummary)
    ensures var t := TrimPrices(p);
            && t.input == TrimSpace(p.input) && t.output == TrimSpace(p.output)
            && t.cacheReadInput == TrimSpace(p.cacheReadInput) && t.cacheWriteInput == TrimSpace(p.cacheWriteInput)
            && t.reasoning == TrimSpace(p.reasoning) && t.imageInput == TrimSpace(p.imageInput)
            && t.audioInput == TrimSpace(p.audioInput) && t.audioOutput == TrimSpace(p.audioOutput)
            && t.request == TrimSpace(p.request) && t.currency == TrimSpace(p.currency) && t.priceType == p.priceType
    ensures forall field :: Price(Some(TrimPrices(p)), field) == TrimSpace(Price(Some(p), field))
  {
    hide TrimSpace;
  }

  /** A summary is dropped exactly if it names nothing but a currency; otherwise every field of it is kept,
      trimmed, and so is its type. */
  lemma NormalizedPricing(pricing: Option<PricingSummary>)
    ensures var n := NormalizePricing(pricing);
            && (n.Some? <==> Usable(pricing))
            && (n.Some? ==> && (forall field :: Price(n, field) == TrimSpace(Price(pricing, field)))
                            && PriceType(n) == PriceType(pricing))
  {
    if pricing.Some? {
      TrimmedFields(pricing.value);
      UsableNamesAPrice(pricing.value);
      hide TrimPrices, TrimSpace, Price, NamesAPrice, Usable;
    }
  }

  lemma UsableNamesAPrice(p: PricingSummary)
    ensures NamesAPrice(TrimPrices(p)) <==> Usable(Some(p))
  {
    TrimmedFields(p);
    hide TrimPrices, TrimSpace, Price;
    var t := TrimPrices(p);
    if NamesAPrice(t) {
      var field: PriceField :| field != Currency && Price(Some(t), field) != "";
      assert !Blank(Price(Some(p), field));
    }
    if Usable(Some(p)) {
      var field: PriceField :| field != Currency && !Blank(Price(Some(p), field));
      assert Price(Some(t), field) != "";
    }
  }

  /** What a summary says in a field, if it is usable. */
  ghost function Said(pricing: Option<PricingSummary>, field: PriceField): string {
    if Usable(pricing) then TrimSpace(Price(pricing, field)) else ""
  }

  ghost function SaidType(pricing: Option<PricingSummary>): int {
    if Usable(pricing) then PriceType(pricing) else 0
  }

  lemma NormalizedSays(pricing: Option<PricingSummary>, field: PriceField)
    ensures Price(NormalizePricing(pricing), field) == Said(pricing, field)
    ensures PriceType(NormalizePricing(pricing)) == SaidType(pricing)
  {
    NormalizedPricing(pricing);
    hide NormalizePricing, Usable, TrimSpace;
  }

  /** A field of the merge is the trimmed price of the first usable summary that has one. There is no merge
      exactly if neither is usable. */
  lemma MergedPricing(primary: Option<PricingSummary>, fallback: Option<PricingSummary>, field: PriceField)
    ensures var merged := MergePricing(primary, fallback);
            && (merged.Some? <==> Usable(primary) || Usable(fallback))
            && Price(merged, field)
               == (if Said(primary, field) != "" then Said(primary, field) else Said(fallback, field))
            && PriceType(merged) == if SaidType(primary) != 0 then SaidType(primary) else SaidType(fallback)
  {
    MergedPrice(primary, fallback, field);
    NormalizedSays(primary, field);
    NormalizedSays(fallback, field);
    NormalizedPricing(primary);
    NormalizedPricing(fallback);
    hide NormalizePricing, Usable, Said, SaidType, FillPrices;
  }

  // ---- Badges -----------------------------------------------------------------------------------

  /** One of the seven known names, which some member spells, whatever its case and the whitespace around. */
  ghost predicate IsBadgeOf(badges: seq<string>, b: string) {
    && b in ["exacto", "extended", "floor", "free", "nitro", "online", "thinking"]
    && exists x :: x in badges && TrimSpace(Lower(x)) == b
  }

  /** The badges of a list are the known names in it, in alphabetical order. */
  lemma NormalizedBadges(badges: seq<string>)
    ensures var r := NormalizeBadges(badges); Sorted(Less, r) && forall b :: b in r <==> IsBadgeOf(badges, b)
  {
    StringsAreOrdered();
    SevenBadges();
    hide TrimSpace, Lower, Less, BADGES;
    forall b ensures b in NormalizeBadges(badges)
      <==> b in BADGES && exists x :: x in badges && TrimSpace(Lower(x)) == b
    {
      if b in NormalizeBadges(badges) {
        var x :| x in badges && NormalizeBadge(x) == b;
        assert TrimSpace(Lower(x)) == b;
      }
      if x :| x in badges && TrimSpace(Lower(x)) == b && b in BADGES { assert NormalizeBadge(x) == b; }
    }
  }

  lemma SevenBadges()
    ensures "" !in BADGES
    ensures forall b :: b in BADGES
                        <==> b in ["exacto", "extended", "floor", "free", "nitro", "online", "thinking"]
  {
  }

  // ---- Aliases ----------------------------------------------------------------------------------

  /** Unspecified aliases first, then stable ones, then snapshots; of one kind by value. */
  predicate ListedBefore(a: Alias, b: Alias) {
    || (a.kind == Unspecified && b.kind != Unspecified)
    || (a.kind == AliasKind.Stable && b.kind == Snapshot)
    || (a.kind == b.kind && Less(a.value, b.value))
  }

  /** The merged aliases are the trimmed ones of both lists, kinds kept, blank ones dropped, each once and
      in order. */
  lemma MergedAliases(left: seq<Alias>, right: seq<Alias>)
    ensures var r := MergeAliases(left, right);
            && (forall i, j | 0 <= i < j < |r| :: ListedBefore(r[i], r[j]))
            && forall a :: a in r
                           <==> && a.value != ""
                                && exists b :: b in left + right && b.kind == a.kind && TrimSpace(b.value) == a.value
  {
    MergedAliasMembers(left, right);
    hide TrimSpace, Less;
    forall a ensures a in CleanAliases(left + right)
      <==> a.value != "" && exists b :: b in left + right && b.kind == a.kind && TrimSpace(b.value) == a.value
    {
      if a in CleanAliases(left + right) {
        var b :| b in left + right && CleanAlias(b) == Some(a);
        assert b.kind == a.kind && TrimSpace(b.value) == a.value;
      }
      if b :| b in left + right && b.kind == a.kind && TrimSpace(b.value) == a.value && a.value != "" {
        assert CleanAlias(b) == Some(a);
      }
    }
    AliasesAreOrdered();
    hide CleanAliases;
    var r := MergeAliases(left, right);
    forall i, j | 0 <= i < j < |r| ensures ListedBefore(r[i], r[j]) { assert AliasLess(r[i], r[j]); }
  }

  // ---- Definitions ------------------------------------------------------------------------------

  /** Two definitions merge into the first one with its gaps filled: its ids always, its name unless that
      is blank, its numbers and lists unless they are zero or empty. A context is named exactly if the
      first names one or the second has a limit to fill in. The members without a field of their own are
      lost; a single definition is kept as it is. */
  lemma MergedDefinitions(p: ModelVersion, f: ModelVersion)
    ensures MergeDefinitions(Some(p), None) == Some(p) && MergeDefinitions(None, Some(f)) == Some(f)
    ensures MergeDefinitions(Some(p), Some(f)).Some?
    ensures var m := MergeDefinitions(Some(p), Some(f)).value;
            && m.vendorID == p.vendorID && m.modelID == p.modelID
            && (!Blank(p.displayName) || Blank(f.displayName) ==> m.displayName == p.displayName)
            && (Blank(p.displayName) && !Blank(f.displayName) ==> m.displayName == f.displayName)
            && m.primaryShape == (if p.primaryShape != 0 then p.primaryShape else f.primaryShape)
            && m.supportedShapes == (if p.supportedShapes != [] then p.supportedShapes else f.supportedShapes)
            && m.capabilities == (if p.capabilities != [] then p.capabilities else f.capabilities)
            && m.inputModalities == (if p.inputModalities != [] then p.inputModalities else f.inputModalities)
            && m.outputModalities == (if p.outputModalities != [] then p.outputModalities else f.outputModalities)
            && m.ContextTokens() == (if p.ContextTokens() != 0 then p.ContextTokens() else f.ContextTokens())
            && m.OutputTokens() == (if p.OutputTokens() != 0 then p.OutputTokens() else f.OutputTokens())
            && (m.contextSpec.Some?
                <==> p.contextSpec.Some? || f.ContextTokens() != 0 || f.OutputTokens() != 0)
            && m.aliases == MergeAliases(p.aliases, f.aliases) && m.others == map[]
  {
    hide MergeAliases, Blank;
  }
}
