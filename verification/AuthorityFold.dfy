/** Folding the reports of one model into one entry (definition_merge.go): merging swaps the
    reports when the fallback is the more trusted one, so the order of the fold matters. */
module AuthorityFold {
  import opened Text
  import Slugs
  import opened ModelIdentity
  import opened EntryMerge
  import opened CollectedSources
  import opened SourceAuthority

  datatype CollectedEntry = CollectedEntry(
    definition: Option<ModelVersion>,
    badges: seq<string>,
    pricing: Option<PricingSummary>,
    sources: seq<CollectedSource>)

  function AuthorityOfEntry(e: CollectedEntry): Authority {
    AuthorityOf(e.sources)
  }

  ghost function MergePair(primary: CollectedEntry, fallback: CollectedEntry): CollectedEntry {
    CollectedEntry(
      MergeDefinitions(primary.definition, fallback.definition),
      MergeBadges(primary.badges, fallback.badges),
      MergePricing(primary.pricing, fallback.pricing),
      Canonical(primary.sources + fallback.sources))
  }

  ghost function MergeEntries(primary: CollectedEntry, fallback: CollectedEntry): CollectedEntry {
    if Higher(AuthorityOfEntry(fallback), AuthorityOfEntry(primary)) then MergePair(fallback, primary)
    else MergePair(primary, fallback)
  }

  /** One source per key of the merge, in some order. */
  ghost predicate ListsMerged(sources: seq<CollectedSource>, out: seq<CollectedSource>) {
    forall s :: s in out <==> exists k :: k in Merged(sources) && Merged(sources)[k] == s
  }

  /** The merge of two reports. The list of sources is pinned down up to order in every case, and
      as a list when their identifiers are stable and their priorities fit. */
  method MergeCollectedEntries(primary0: CollectedEntry, fallback0: CollectedEntry) returns (r: CollectedEntry)
    ensures r.(sources := []) == MergeEntries(primary0, fallback0).(sources := [])
    ensures WellFormed(primary0.sources + fallback0.sources) ==> r == MergeEntries(primary0, fallback0)
    ensures var swap := Higher(AuthorityOfEntry(fallback0), AuthorityOfEntry(primary0));
            ListsMerged(if swap then fallback0.sources + primary0.sources
                        else primary0.sources + fallback0.sources, r.sources)
  {
    hide WellFormed, Merged, Canonical, AuthorityOf, CompareSourceID, MergeDefinitions, MergePricing, NormalizeBadges;
    var primary, fallback := primary0, fallback0;
    var order := CompareCollectedEntryAuthority(fallback.sources, primary.sources);
    if order < 0 {
      primary, fallback := fallback, primary;
    }
    var definition := MergeDefinitionMetadata(primary.definition, fallback.definition);
    var badges := NormalizeDefinitionSourceBadges(primary.badges + fallback.badges);
    var pricing := MergePricingSummary(primary.pricing, fallback.pricing);
    var sources := NormalizeCollectedSources(primary.sources + fallback.sources);
    if WellFormed(primary0.sources + fallback0.sources) {
      SwappedSources(primary0.sources, fallback0.sources);
    }
    assert ListsMerged(primary.sources + fallback.sources, sources);
    r := CollectedEntry(definition, badges, pricing, sources);
  }

  lemma SwappedSources(a: seq<CollectedSource>, b: seq<CollectedSource>)
    requires WellFormed(a + b)
    ensures WellFormed(b + a)
  {
    hide StableIDs, Fits;
    assert forall s :: s in b + a <==> s in a + b;
  }

  /** Merging commutes unless the authorities tie; then the first report wins. */
  lemma MergeCommutesUnlessTied(a: CollectedEntry, b: CollectedEntry)
    ensures !Tied(AuthorityOfEntry(a), AuthorityOfEntry(b)) ==> MergeEntries(a, b) == MergeEntries(b, a)
    ensures Tied(AuthorityOfEntry(a), AuthorityOfEntry(b))
            ==> MergeEntries(a, b) == MergePair(a, b) && MergeEntries(b, a) == MergePair(b, a)
  {
    var x, y := AuthorityOfEntry(a), AuthorityOfEntry(b);
    AuthoritiesAreOrdered(x, y, x);
    AuthoritiesAreOrdered(y, x, y);
    hide AuthorityOf, CompareAuthority, MergePair;
  }

  // ---- The fold ---------------------------------------------------------------------------------

  /** What is left of a model's reports after merging them one by one. */
  ghost function Folded(entries: seq<CollectedEntry>): CollectedEntry
    requires entries != []
  {
    if |entries| == 1 then entries[0] else MergeEntries(Folded(entries[..|entries| - 1]), entries[|entries| - 1])
  }

  /** The same without the swap. */
  ghost function Filled(entries: seq<CollectedEntry>): CollectedEntry
    requires entries != []
  {
    if |entries| == 1 then entries[0] else MergePair(Filled(entries[..|entries| - 1]), entries[|entries| - 1])
  }

  ghost function AllSources(entries: seq<CollectedEntry>): seq<CollectedSource> {
    if entries == [] then [] else AllSources(entries[..|entries| - 1]) + entries[|entries| - 1].sources
  }

  ghost predicate Descending(entries: seq<CollectedEntry>) {
    forall i, j | 0 <= i < j < |entries| :: Higher(AuthorityOfEntry(entries[i]), AuthorityOfEntry(entries[j]))
  }

  /** What collecting puts into an entry: normalised badges, prices and sources. */
  ghost predicate Prepared(e: CollectedEntry) {
    && NormalizeBadges(e.badges) == e.badges
    && NormalizePricing(e.pricing) == e.pricing
    && Canonical(e.sources) == e.sources
  }

  ghost predicate Foldable(entries: seq<CollectedEntry>) {
    && entries != []
    && (forall e | e in entries :: Prepared(e))
    && Tidy(AllSources(entries))
  }

  lemma FoldableInit(entries: seq<CollectedEntry>)
    requires Foldable(entries) && |entries| > 1
    ensures Foldable(entries[..|entries| - 1])
    ensures Descending(entries) ==> Descending(entries[..|entries| - 1])
  {
    hide Prepared, WellFormed, Coherent, Higher, Tidy;
    var init, last := entries[..|entries| - 1], entries[|entries| - 1];
    assert AllSources(entries) == AllSources(init) + last.sources;
    TidyMembers(AllSources(entries), AllSources(init));
    forall e | e in init ensures e in entries {
      var i :| 0 <= i < |init| && init[i] == e;
      assert entries[i] == e;
    }
  }

  lemma TidyMembers(a: seq<CollectedSource>, b: seq<CollectedSource>)
    requires Tidy(a) && forall s | s in b :: s in a
    ensures Tidy(b)
  {
    hide StableIDs, Fits, Normalize, IdentityKey;
  }

  lemma {:induction false} MergedAppend(a: seq<CollectedSource>, b: seq<CollectedSource>, more: seq<CollectedSource>)
    requires Merged(a) == Merged(b)
    ensures Merged(a + more) == Merged(b + more)
    decreases |more|
  {
    hide AddSource;
    if more == [] {
      assert a + more == a && b + more == b;
    } else {
      var init := more[..|more| - 1];
      assert (a + more)[..|a + more| - 1] == a + init && (b + more)[..|b + more| - 1] == b + init;
      MergedAppend(a, b, init);
    }
  }

  /** Normalising the sources gathered so far loses nothing. */
  lemma CanonicalAppend(a: seq<CollectedSource>, more: seq<CollectedSource>)
    requires WellFormed(a)
    ensures Canonical(Canonical(a) + more) == Canonical(a + more)
  {
    hide WellFormed;
    MergedOfCanonical(a);
    MergedAppend(Canonical(a), a, more);
    hide Merged;
  }

  /** Sources that are not more trusted than the best so far do not change the best. */
  lemma {:induction false} BestAppend(a: seq<CollectedSource>, more: seq<CollectedSource>)
    requires forall s | s in more :: !Higher(AuthorityOfSource(s), Best(a))
    ensures Best(a + more) == Best(a)
    decreases |more|
  {
    hide Higher, AuthorityOfSource;
    if more == [] {
      assert a + more == a;
    } else {
      var init := more[..|more| - 1];
      assert (a + more)[..|a + more| - 1] == a + init;
      BestAppend(a, init);
    }
  }

  lemma NothingBelowNone(a: Authority)
    requires a.priority >= 0
    ensures !Higher(Authority(0, ""), a)
  {
  }

  /** Appending less trusted sources keeps the authority. */
  lemma AuthorityAppend(a: seq<CollectedSource>, more: seq<CollectedSource>)
    requires Higher(AuthorityOf(a), AuthorityOf(more))
    ensures a != [] && AuthorityOf(a + more) == AuthorityOf(a)
  {
    BestIsBest(a);
    BestIsBest(more);
    hide CompareAuthority, AuthorityOfSource, Best;
    NothingBelowNone(AuthorityOf(more));
    forall s | s in more ensures !Higher(AuthorityOfSource(s), Best(a)) {
      AuthoritiesAreOrdered(AuthorityOfSource(s), Best(a), Best(more));
    }
    BestAppend(a, more);
  }

  lemma {:induction false} DescendingAuthority(entries: seq<CollectedEntry>)
    requires entries != [] && Descending(entries)
    ensures AuthorityOf(AllSources(entries)) == AuthorityOfEntry(entries[0])
    ensures |entries| > 1 ==> AllSources(entries) != []
  {
    hide AuthorityOf, Higher;
    if |entries| == 1 {
      assert AllSources(entries) == entries[0].sources;
    } else {
      var init, last := entries[..|entries| - 1], entries[|entries| - 1];
      assert Descending(init);
      DescendingAuthority(init);
      AuthorityAppend(AllSources(init), last.sources);
    }
  }

  /** Folding from the most to the least trusted report never swaps, gathers every source, and
      keeps the authority of the first report. */
  lemma {:induction false} DescendingFoldNeverSwaps(entries: seq<CollectedEntry>)
    requires Foldable(entries) && Descending(entries)
    ensures Folded(entries) == Filled(entries)
    ensures Folded(entries).sources == Canonical(AllSources(entries))
    ensures Tied(AuthorityOfEntry(Folded(entries)), AuthorityOfEntry(entries[0]))
    decreases |entries|
  {
    hide Canonical, WellFormed, Coherent, Higher, Tied, AuthorityOf, MergeDefinitions, MergeBadges, MergePricing;
    if |entries| == 1 {
      assert AllSources(entries) == entries[0].sources;
      assert entries[0] in entries;
      SelfTied(AuthorityOfEntry(entries[0]));
    } else {
      var init, last := entries[..|entries| - 1], entries[|entries| - 1];
      FoldableInit(entries);
      DescendingFoldNeverSwaps(init);
      StaysBelow(AuthorityOfEntry(Folded(init)), AuthorityOfEntry(entries[0]), AuthorityOfEntry(last));
      CanonicalAppend(AllSources(init), last.sources);
      DescendingAuthority(entries);
      CanonicalKeepsAuthority(AllSources(entries));
    }
  }

  lemma StaysBelow(folded: Authority, first: Authority, last: Authority)
    requires Tied(folded, first) && Higher(first, last)
    ensures !Higher(last, folded)
  {
    hide CompareAuthority;
    AuthoritiesAreOrdered(folded, first, last);
    AuthoritiesAreOrdered(folded, last, folded);
    AuthoritiesAreOrdered(last, folded, last);
  }

  // ---- What the fold computes -------------------------------------------------------------------

  /** `r` is the first non-empty value of the list, or empty if there is none. */
  ghost predicate IsFirst<T>(values: seq<T>, empty: T, r: T) {
    || (r == empty && forall i | 0 <= i < |values| :: values[i] == empty)
    || (exists i | 0 <= i < |values| :: values[i] == r != empty && forall j | 0 <= j < i :: values[j] == empty)
  }

  lemma FirstSnoc<T>(values: seq<T>, empty: T, first: T, last: T)
    requires IsFirst(values, empty, first)
    ensures IsFirst(values + [last], empty, Or(first, last, empty))
  {
    var all := values + [last];
    if first != empty {
      var i :| 0 <= i < |values| && values[i] == first != empty && forall j | 0 <= j < i :: values[j] == empty;
      assert all[i] == first;
    } else {
      assert forall i | 0 <= i < |values| :: values[i] == empty;
      assert all[|values|] == last;
      assert forall i | 0 <= i < |values| :: all[i] == empty;
    }
  }

  datatype NumberField = PrimaryShape | ContextTokens | OutputTokens | PriceTypeNumber
  datatype ListField = SupportedShapes | Capabilities | InputModalities | OutputModalities

  function Number(e: CollectedEntry, field: NumberField): int {
    if field == PriceTypeNumber then PriceType(e.pricing)
    else if e.definition.None? then 0
    else if field == PrimaryShape then e.definition.value.primaryShape
    else if field == ContextTokens then e.definition.value.ContextTokens()
    else e.definition.value.OutputTokens()
  }

  function List(e: CollectedEntry, field: ListField): seq<int> {
    if e.definition.None? then [] else
      match field
      case SupportedShapes => e.definition.value.supportedShapes
      case Capabilities => e.definition.value.capabilities
      case InputModalities => e.definition.value.inputModalities
      case OutputModalities => e.definition.value.outputModalities
  }

  function AliasesOf(e: CollectedEntry): seq<Alias> {
    if e.definition.None? then [] else CleanAliases(e.definition.value.aliases)
  }

  ghost function Numbers(entries: seq<CollectedEntry>, field: NumberField): (r: seq<int>)
    ensures |r| == |entries| && forall i | 0 <= i < |r| :: r[i] == Number(entries[i], field)
  {
    seq(|entries|, i requires 0 <= i < |entries| => Number(entries[i], field))
  }

  ghost function Lists(entries: seq<CollectedEntry>, field: ListField): (r: seq<seq<int>>)
    ensures |r| == |entries| && forall i | 0 <= i < |r| :: r[i] == List(entries[i], field)
  {
    seq(|entries|, i requires 0 <= i < |entries| => List(entries[i], field))
  }

  ghost function Prices(entries: seq<CollectedEntry>, field: PriceField): (r: seq<string>)
    ensures |r| == |entries| && forall i | 0 <= i < |r| :: r[i] == Price(entries[i].pricing, field)
  {
    seq(|entries|, i requires 0 <= i < |entries| => Price(entries[i].pricing, field))
  }

  lemma MergedNumbers(p: CollectedEntry, f: CollectedEntry, field: NumberField)
    requires IsNormal(p.pricing) && IsNormal(f.pricing)
    ensures Number(MergePair(p, f), field) == Or(Number(p, field), Number(f, field), 0)
  {
    hide MergeAliases, Canonical, MergeBadges, MergePricing, OrText, NormalizePricing, IsNormal;
    if field == PriceTypeNumber {
      MergedPrice(p.pricing, f.pricing, Input);
      NormalIsFixed(p.pricing);
      NormalIsFixed(f.pricing);
    }
  }

  lemma NormalIsFixed(p: Option<PricingSummary>)
    requires IsNormal(p)
    ensures NormalizePricing(p) == p
  {
  }

  lemma MergedLists(p: CollectedEntry, f: CollectedEntry, field: ListField)
    ensures List(MergePair(p, f), field) == Or(List(p, field), List(f, field), [])
  {
    hide MergeAliases, Canonical, MergeBadges, MergePricing, OrText, MergeContext;
  }

  lemma MergedPrices(p: CollectedEntry, f: CollectedEntry, field: PriceField)
    requires IsNormal(p.pricing) && IsNormal(f.pricing)
    ensures Price(MergePair(p, f).pricing, field) == Or(Price(p.pricing, field), Price(f.pricing, field), "")
  {
    hide MergeDefinitions, Canonical, MergeBadges, MergePricing, NormalizePricing;
    MergedPrice(p.pricing, f.pricing, field);
    NormalIsFixed(p.pricing);
    NormalIsFixed(f.pricing);
  }

  /** Filling gaps report by report leaves, in every field, the first value there is. */
  lemma {:induction false} FilledNumbers(entries: seq<CollectedEntry>, n: NumberField)
    requires entries != [] && forall e | e in entries :: IsNormal(e.pricing)
    ensures IsNormal(Filled(entries).pricing) && IsFirst(Numbers(entries, n), 0, Number(Filled(entries), n))
    decreases |entries|
  {
    hide IsNormal, Number, MergePair, IsFirst;
    assert entries[0] in entries;
    if |entries| == 1 {
      FirstOfOne(Numbers(entries, n), 0);
    } else {
      var init, last := entries[..|entries| - 1], entries[|entries| - 1];
      FilledNumbers(init, n);
      assert last in entries;
      MergedNumbers(Filled(init), last, n);
      PairIsNormal(Filled(init), last);
      FirstSnoc(Numbers(init, n), 0, Number(Filled(init), n), Number(last, n));
      assert Numbers(entries, n) == Numbers(init, n) + [Number(last, n)];
    }
  }

  lemma {:induction false} FilledLists(entries: seq<CollectedEntry>, l: ListField)
    requires entries != []
    ensures IsFirst(Lists(entries, l), [], List(Filled(entries), l))
    decreases |entries|
  {
    hide List, MergePair, IsFirst;
    if |entries| == 1 {
      FirstOfOne(Lists(entries, l), []);
    } else {
      var init, last := entries[..|entries| - 1], entries[|entries| - 1];
      FilledLists(init, l);
      MergedLists(Filled(init), last, l);
      FirstSnoc(Lists(init, l), [], List(Filled(init), l), List(last, l));
      assert Lists(entries, l) == Lists(init, l) + [List(last, l)];
    }
  }

  lemma {:induction false} FilledPrices(entries: seq<CollectedEntry>, p: PriceField)
    requires entries != [] && forall e | e in entries :: IsNormal(e.pricing)
    ensures IsNormal(Filled(entries).pricing) && IsFirst(Prices(entries, p), "", Price(Filled(entries).pricing, p))
    decreases |entries|
  {
    hide IsNormal, Price, MergePair, IsFirst;
    assert entries[0] in entries;
    if |entries| == 1 {
      FirstOfOne(Prices(entries, p), "");
    } else {
      var init, last := entries[..|entries| - 1], entries[|entries| - 1];
      FilledPrices(init, p);
      assert last in entries;
      MergedPrices(Filled(init), last, p);
      PairIsNormal(Filled(init), last);
      FirstSnoc(Prices(init, p), "", Price(Filled(init).pricing, p), Price(last.pricing, p));
      assert Prices(entries, p) == Prices(init, p) + [Price(last.pricing, p)];
    }
  }

  lemma PairIsNormal(p: CollectedEntry, f: CollectedEntry)
    ensures IsNormal(MergePair(p, f).pricing)
  {
    hide MergePricing, IsNormal, MergeDefinitions, MergeBadges, Canonical;
    MergedIsNormal(p.pricing, f.pricing);
  }

  lemma FirstOfOne<T>(values: seq<T>, empty: T)
    requires |values| == 1
    ensures IsFirst(values, empty, values[0])
  {
  }

  // ---- Unions -----------------------------------------------------------------------------------

  lemma PairUnions(p: CollectedEntry, f: CollectedEntry, alias: Alias, badge: string)
    requires NormalizeBadges(f.badges) == f.badges && NormalizeBadges(p.badges) == p.badges
    ensures alias in AliasesOf(MergePair(p, f)) <==> alias in AliasesOf(p) || alias in AliasesOf(f)
    ensures var r := MergePair(p, f);
            NormalizeBadges(r.badges) == r.badges && (badge in r.badges <==> badge in p.badges || badge in f.badges)
  {
    hide MergePricing, Canonical, CleanAliases, MergeAliases, NormalizeBadges;
    NormalizeBadgesTwice(p.badges + f.badges);
    MergedBadgeMembers(p.badges, f.badges);
    if p.definition.Some? && f.definition.Some? {
      MergedAliasMembers(p.definition.value.aliases, f.definition.value.aliases);
      CleanAliasesTwice(p.definition.value.aliases, f.definition.value.aliases);
    }
  }

  /** Aliases and badges are united. */
  lemma {:induction false} FilledUnions(entries: seq<CollectedEntry>, alias: Alias, badge: string)
    requires entries != [] && forall e | e in entries :: NormalizeBadges(e.badges) == e.badges
    ensures var r := Filled(entries);
            && NormalizeBadges(r.badges) == r.badges
            && (alias in AliasesOf(r) <==> exists e :: e in entries && alias in AliasesOf(e))
            && (badge in r.badges <==> exists e :: e in entries && badge in e.badges)
    decreases |entries|
  {
    hide AliasesOf, NormalizeBadges, MergePair;
    assert entries[0] in entries;
    if |entries| > 1 {
      var init, last := entries[..|entries| - 1], entries[|entries| - 1];
      assert forall e :: e in entries <==> e in init || e == last;
      FilledUnions(init, alias, badge);
      PairUnions(Filled(init), last, alias, badge);
    }
  }

  lemma HasKeyConcat(a: seq<CollectedSource>, b: seq<CollectedSource>, k: Key)
    ensures HasKey(a + b, k) <==> HasKey(a, k) || HasKey(b, k)
  {
    hide KeyOf;
    if HasKey(a, k) { var i :| 0 <= i < |a| && KeyOf(a[i]) == k; assert (a + b)[i] == a[i]; }
    if HasKey(b, k) { var i :| 0 <= i < |b| && KeyOf(b[i]) == k; assert (a + b)[|a| + i] == b[i]; }
    if HasKey(a + b, k) {
      var i :| 0 <= i < |a + b| && KeyOf((a + b)[i]) == k;
      if i < |a| { assert a[i] == (a + b)[i]; } else { assert b[i - |a|] == (a + b)[i]; }
    }
  }

  lemma {:induction false} AllKeys(entries: seq<CollectedEntry>, k: Key)
    ensures HasKey(AllSources(entries), k) <==> exists e :: e in entries && HasKey(e.sources, k)
    decreases |entries|
  {
    hide HasKey;
    if entries == [] {
      NoKeys();
    } else {
      var init, last := entries[..|entries| - 1], entries[|entries| - 1];
      assert forall e :: e in entries <==> e in init || e == last;
      AllKeys(init, k);
      HasKeyConcat(AllSources(init), last.sources, k);
    }
  }

  lemma MergedKeys(sources: seq<CollectedSource>, k: Key)
    requires (forall s | s in sources :: Normalize(s) == Some(s))
    ensures (exists s :: s in sources && IdentityKey(s) == Some(k)) <==> HasKey(sources, k)
  {
    hide Normalize, IdentityKey, KeyOf;
    forall s | s in sources ensures IdentityKey(s) == Some(KeyOf(s)) { CleanSourceKey(s); }
    if HasKey(sources, k) {
      var i :| 0 <= i < |sources| && KeyOf(sources[i]) == k;
      assert sources[i] in sources;
    }
  }

  /** Normalising clean sources keeps their keys. */
  lemma CanonicalKeepsKeys(sources: seq<CollectedSource>, k: Key)
    requires Tidy(sources)
    ensures HasKey(Canonical(sources), k) <==> HasKey(sources, k)
  {
    assert WellFormed(sources);
    hide Merged, Canonical, Normalize, IdentityKey, HasKey, Coherent, Keyed, StableIDs, Fits;
    CanonicalKeys(sources);
    MergedIsKeyed(sources);
    MergedKeys(sources, k);
  }

  // ---- The theorem ------------------------------------------------------------------------------

  /** What folding in descending authority order yields: per number, list and price the first
      non-empty value in authority order; the union of aliases, badges and source keys; and the
      sources of all reports, normalised at once. */
  lemma DescendingFold(entries: seq<CollectedEntry>)
    requires Foldable(entries) && Descending(entries)
    ensures var r := Folded(entries);
            && (forall n :: IsFirst(Numbers(entries, n), 0, Number(r, n)))
            && (forall l :: IsFirst(Lists(entries, l), [], List(r, l)))
            && (forall p :: IsFirst(Prices(entries, p), "", Price(r.pricing, p)))
            && (forall a :: a in AliasesOf(r) <==> exists e :: e in entries && a in AliasesOf(e))
            && (forall b :: b in r.badges <==> exists e :: e in entries && b in e.badges)
            && (forall k :: HasKey(r.sources, k) <==> exists e :: e in entries && HasKey(e.sources, k))
            && r.sources == Canonical(AllSources(entries))
  {
    DescendingFoldNeverSwaps(entries);
    forall e | e in entries ensures IsNormal(e.pricing) { NormalizedIsNormal(e.pricing); }
    hide Filled, Folded, Canonical, Tidy, NormalizeBadges, NormalizePricing, IsNormal, IsFirst, AliasesOf, HasKey,
      AllSources, AuthorityOf, Number, List, Price;
    forall n ensures IsFirst(Numbers(entries, n), 0, Number(Folded(entries), n)) {
      FilledNumbers(entries, n);
    }
    forall l ensures IsFirst(Lists(entries, l), [], List(Folded(entries), l)) {
      FilledLists(entries, l);
    }
    forall p ensures IsFirst(Prices(entries, p), "", Price(Folded(entries).pricing, p)) {
      FilledPrices(entries, p);
    }
    forall a ensures a in AliasesOf(Folded(entries)) <==> exists e :: e in entries && a in AliasesOf(e) {
      FilledUnions(entries, a, "");
    }
    forall b ensures b in Folded(entries).badges <==> exists e :: e in entries && b in e.badges {
      FilledUnions(entries, Alias.Alias(Unspecified, ""), b);
    }
    forall k ensures HasKey(Folded(entries).sources, k) <==> exists e :: e in entries && HasKey(e.sources, k) {
      AllKeys(entries, k);
      CanonicalKeepsKeys(AllSources(entries), k);
    }
  }

  /** What collecting fills in before merging. */
  ghost predicate Defaulted(e: CollectedEntry) {
    && e.definition.Some?
    && !Blank(e.definition.value.displayName)
    && e.definition.value.primaryShape != 0
    && e.definition.value.supportedShapes != []
    && e.definition.value.inputModalities != []
    && e.definition.value.outputModalities != []
  }

  lemma {:induction false} FilledKeepsFirst(entries: seq<CollectedEntry>)
    requires entries != [] && Defaulted(entries[0])
    ensures var r, first := Filled(entries), entries[0];
            && r.definition.Some?
            && r.definition.value.vendorID == first.definition.value.vendorID
            && r.definition.value.modelID == first.definition.value.modelID
            && r.definition.value.displayName == first.definition.value.displayName
            && r.definition.value.primaryShape == first.definition.value.primaryShape
            && r.definition.value.supportedShapes == first.definition.value.supportedShapes
            && r.definition.value.inputModalities == first.definition.value.inputModalities
            && r.definition.value.outputModalities == first.definition.value.outputModalities
  {
    hide Blank, MergeAliases, MergeContext, MergeBadges, MergePricing, Canonical;
    if |entries| > 1 { FilledKeepsFirst(entries[..|entries| - 1]); }
  }

  /** Names, shapes and modalities always come from the most trusted report, because collecting
      leaves no gap in them. */
  lemma DescendingFoldKeepsFirst(entries: seq<CollectedEntry>)
    requires Foldable(entries) && Descending(entries) && Defaulted(entries[0])
    ensures var r, first := Folded(entries), entries[0];
            && r.definition.Some?
            && r.definition.value.vendorID == first.definition.value.vendorID
            && r.definition.value.modelID == first.definition.value.modelID
            && r.definition.value.displayName == first.definition.value.displayName
            && r.definition.value.primaryShape == first.definition.value.primaryShape
            && r.definition.value.supportedShapes == first.definition.value.supportedShapes
            && r.definition.value.inputModalities == first.definition.value.inputModalities
            && r.definition.value.outputModalities == first.definition.value.outputModalities
  {
    DescendingFoldNeverSwaps(entries);
    FilledKeepsFirst(entries);
  }

  // ---- Any other order --------------------------------------------------------------------------

  lemma {:induction false} InAllSources(entries: seq<CollectedEntry>, s: CollectedSource)
    ensures s in AllSources(entries) <==> exists e :: e in entries && s in e.sources
    decreases |entries|
  {
    if entries != [] {
      var init, last := entries[..|entries| - 1], entries[|entries| - 1];
      assert forall e :: e in entries <==> e in init || e == last;
      InAllSources(init, s);
    }
  }

  /** Three reports of falling authority. */
  ghost predicate Falling(top: CollectedEntry, mid: CollectedEntry, low: CollectedEntry) {
    Descending([top, mid, low]) && Foldable([top, mid, low])
  }

  /** Merging two of them puts the more trusted first, whichever comes first. */
  ghost predicate Outranks(a: CollectedEntry, b: CollectedEntry) {
    Higher(AuthorityOfEntry(a), AuthorityOfEntry(b)) && Tidy(a.sources + b.sources)
  }

  lemma FallingPairs(top: CollectedEntry, mid: CollectedEntry, low: CollectedEntry)
    requires Falling(top, mid, low)
    ensures Outranks(top, mid) && Outranks(top, low) && Outranks(mid, low)
    ensures IsNormal(top.pricing) && IsNormal(mid.pricing) && IsNormal(low.pricing)
  {
    var three := [top, mid, low];
    PreparedPrices(three, top, mid, low);
    hide Tidy, Prepared, AllSources, IsNormal, AuthorityOfEntry, CompareAuthority;
    TidyPairs(three, top, mid, low);
    hide Foldable;
    assert three[0] == top && three[1] == mid && three[2] == low;
  }

  lemma TidyPairs(three: seq<CollectedEntry>, top: CollectedEntry, mid: CollectedEntry, low: CollectedEntry)
    requires three == [top, mid, low] && Tidy(AllSources(three))
    ensures Tidy(top.sources + mid.sources) && Tidy(top.sources + low.sources) && Tidy(mid.sources + low.sources)
  {
    hide Tidy, AllSources;
    forall s ensures s in AllSources(three) <==> s in top.sources || s in mid.sources || s in low.sources {
      InAllSources(three, s);
    }
    TidyMembers(AllSources(three), top.sources + mid.sources);
    TidyMembers(AllSources(three), top.sources + low.sources);
    TidyMembers(AllSources(three), mid.sources + low.sources);
  }

  lemma PairInEitherOrder(a: CollectedEntry, b: CollectedEntry)
    requires Outranks(a, b)
    ensures MergeEntries(a, b) == MergePair(a, b) && MergeEntries(b, a) == MergePair(a, b)
    ensures Tied(AuthorityOfEntry(MergePair(a, b)), AuthorityOfEntry(a))
  {
    hide Tidy, Canonical, AuthorityOf, MergeDefinitions, MergeBadges, MergePricing, Tied;
    AuthoritiesAreOrdered(AuthorityOfEntry(a), AuthorityOfEntry(b), AuthorityOfEntry(a));
    hide CompareAuthority;
    AuthorityAppend(a.sources, b.sources);
    CanonicalKeepsAuthority(a.sources + b.sources);
  }

  lemma PreparedPrices(entries: seq<CollectedEntry>, a: CollectedEntry, b: CollectedEntry, c: CollectedEntry)
    requires Foldable(entries) && entries == [a, b, c]
    ensures IsNormal(a.pricing) && IsNormal(b.pricing) && IsNormal(c.pricing)
  {
    assert entries[0] == a && entries[1] == b && entries[2] == c;
    assert Prepared(a) && Prepared(b) && Prepared(c);
    hide Tidy, Canonical, NormalizeBadges, NormalizePricing, IsNormal;
    NormalizedIsNormal(a.pricing);
    NormalizedIsNormal(b.pricing);
    NormalizedIsNormal(c.pricing);
  }

  /** Merging `a`, `b` and `c` in this order. */
  ghost function OfThree(a: CollectedEntry, b: CollectedEntry, c: CollectedEntry): CollectedEntry {
    Folded([a, b, c])
  }

  lemma FoldOfThree(a: CollectedEntry, b: CollectedEntry, c: CollectedEntry)
    ensures OfThree(a, b, c) == MergeEntries(MergeEntries(a, b), c)
  {
    hide MergeEntries;
    var three, two, one := [a, b, c], [a, b], [a];
    assert three[..|three| - 1] == two && two[..|two| - 1] == one;
    assert Folded(two) == MergeEntries(Folded(one), b);
  }

  /** The six orders of the fold: unless the middle report comes last, the gaps of the most trusted one
      are filled in authority order. */
  lemma SixFolds(top: CollectedEntry, mid: CollectedEntry, low: CollectedEntry)
    requires Falling(top, mid, low)
    ensures OfThree(top, mid, low) == MergePair(MergePair(top, mid), low) == OfThree(mid, top, low)
    ensures OfThree(mid, low, top) == MergePair(top, MergePair(mid, low)) == OfThree(low, mid, top)
    ensures OfThree(low, top, mid) == MergePair(MergePair(top, low), mid) == OfThree(top, low, mid)
  {
    FallingPairs(top, mid, low);
    hide Falling, MergePair, Tidy, Tied, Higher, AuthorityOf, OfThree;
    FoldOfThree(top, mid, low);
    FoldOfThree(mid, top, low);
    FoldOfThree(mid, low, top);
    FoldOfThree(low, mid, top);
    FoldOfThree(low, top, mid);
    FoldOfThree(top, low, mid);
    PairInEitherOrder(top, mid);
    PairInEitherOrder(mid, low);
    PairInEitherOrder(top, low);
    StaysBelow(AuthorityOfEntry(MergePair(top, mid)), AuthorityOfEntry(top), AuthorityOfEntry(low));
    StaysBelow(AuthorityOfEntry(MergePair(top, low)), AuthorityOfEntry(top), AuthorityOfEntry(mid));
    StillAbove(AuthorityOfEntry(MergePair(mid, low)), AuthorityOfEntry(mid), AuthorityOfEntry(top));
  }

  lemma StillAbove(folded: Authority, first: Authority, top: Authority)
    requires Tied(folded, first) && Higher(top, first)
    ensures Higher(top, folded)
  {
    hide CompareAuthority;
    AuthoritiesAreOrdered(folded, first, top);
  }

  lemma ThreeNumbers(a: CollectedEntry, b: CollectedEntry, c: CollectedEntry, n: NumberField)
    requires IsNormal(a.pricing) && IsNormal(b.pricing) && IsNormal(c.pricing)
    ensures Number(MergePair(MergePair(a, b), c), n) == Or(Or(Number(a, n), Number(b, n), 0), Number(c, n), 0)
    ensures Number(MergePair(a, MergePair(b, c)), n) == Or(Number(a, n), Or(Number(b, n), Number(c, n), 0), 0)
  {
    hide Number, MergePair, IsNormal;
    PairIsNormal(a, b);
    PairIsNormal(b, c);
    MergedNumbers(a, b, n);
    MergedNumbers(MergePair(a, b), c, n);
    MergedNumbers(b, c, n);
    MergedNumbers(a, MergePair(b, c), n);
  }

  lemma ThreeLists(a: CollectedEntry, b: CollectedEntry, c: CollectedEntry, l: ListField)
    ensures List(MergePair(MergePair(a, b), c), l) == Or(Or(List(a, l), List(b, l), []), List(c, l), [])
    ensures List(MergePair(a, MergePair(b, c)), l) == Or(List(a, l), Or(List(b, l), List(c, l), []), [])
  {
    hide List, MergePair;
    MergedLists(a, b, l);
    MergedLists(MergePair(a, b), c, l);
    MergedLists(b, c, l);
    MergedLists(a, MergePair(b, c), l);
  }

  lemma ThreePrices(a: CollectedEntry, b: CollectedEntry, c: CollectedEntry, p: PriceField)
    requires IsNormal(a.pricing) && IsNormal(b.pricing) && IsNormal(c.pricing)
    ensures Price(MergePair(MergePair(a, b), c).pricing, p)
            == Or(Or(Price(a.pricing, p), Price(b.pricing, p), ""), Price(c.pricing, p), "")
    ensures Price(MergePair(a, MergePair(b, c)).pricing, p)
            == Or(Price(a.pricing, p), Or(Price(b.pricing, p), Price(c.pricing, p), ""), "")
  {
    hide Price, MergePair, IsNormal;
    PairIsNormal(a, b);
    PairIsNormal(b, c);
    MergedPrices(a, b, p);
    MergedPrices(MergePair(a, b), c, p);
    MergedPrices(b, c, p);
    MergedPrices(a, MergePair(b, c), p);
  }

  /** The field is missing in the first, and the other two disagree on it. */
  predicate Disputed<T(==)>(top: T, mid: T, low: T, empty: T) {
    top == empty && mid != empty && low != empty && mid != low
  }

  /** The two entries differ in a field exactly where the three reports leave it disputed. */
  ghost predicate DifferWhereDisputed(x: CollectedEntry, y: CollectedEntry, top: CollectedEntry, mid: CollectedEntry,
            low: CollectedEntry) {
    && (forall n :: Number(x, n) != Number(y, n) <==> Disputed(Number(top, n), Number(mid, n), Number(low, n), 0))
    && (forall l :: List(x, l) != List(y, l) <==> Disputed(List(top, l), List(mid, l), List(low, l), []))
    && (forall p :: Price(x.pricing, p) != Price(y.pricing, p)
                    <==> Disputed(Price(top.pricing, p), Price(mid.pricing, p), Price(low.pricing, p), ""))
  }

  ghost predicate SameFields(x: CollectedEntry, y: CollectedEntry) {
    && (forall n :: Number(x, n) == Number(y, n)) && (forall l :: List(x, l) == List(y, l))
    && (forall p :: Price(x.pricing, p) == Price(y.pricing, p))
  }

  lemma MiddleLast(top: CollectedEntry, mid: CollectedEntry, low: CollectedEntry)
    requires IsNormal(top.pricing) && IsNormal(mid.pricing) && IsNormal(low.pricing)
    ensures DifferWhereDisputed(MergePair(MergePair(top, mid), low), MergePair(MergePair(top, low), mid), top, mid, low)
  {
    hide Number, List, Price, MergePair, IsNormal;
    var x, y := MergePair(MergePair(top, mid), low), MergePair(MergePair(top, low), mid);
    forall n ensures Number(x, n) != Number(y, n) <==> Disputed(Number(top, n), Number(mid, n), Number(low, n), 0) {
      ThreeNumbers(top, low, mid, n);
      ThreeNumbers(top, mid, low, n);
    }
    forall l ensures List(x, l) != List(y, l) <==> Disputed(List(top, l), List(mid, l), List(low, l), []) {
      ThreeLists(top, low, mid, l);
      ThreeLists(top, mid, low, l);
    }
    forall p ensures Price(x.pricing, p) != Price(y.pricing, p)
                     <==> Disputed(Price(top.pricing, p), Price(mid.pricing, p), Price(low.pricing, p), "") {
      ThreePrices(top, low, mid, p);
      ThreePrices(top, mid, low, p);
    }
  }

  lemma MiddleFirst(top: CollectedEntry, mid: CollectedEntry, low: CollectedEntry)
    requires IsNormal(top.pricing) && IsNormal(mid.pricing) && IsNormal(low.pricing)
    ensures SameFields(MergePair(MergePair(top, mid), low), MergePair(top, MergePair(mid, low)))
  {
    hide Number, List, Price, MergePair, IsNormal;
    var x, y := MergePair(MergePair(top, mid), low), MergePair(top, MergePair(mid, low));
    forall n ensures Number(x, n) == Number(y, n) { ThreeNumbers(top, mid, low, n); }
    forall l ensures List(x, l) == List(y, l) { ThreeLists(top, mid, low, l); }
    forall p ensures Price(x.pricing, p) == Price(y.pricing, p) { ThreePrices(top, mid, low, p); }
  }

  /** The order of the fold is load-bearing. With the most and the least trusted report merged first, in
      either order, a number, list or price comes out different from the descending fold exactly when
      the most trusted report lacks it and the others disagree. */
  lemma FoldOrderMattersIff(top: CollectedEntry, mid: CollectedEntry, low: CollectedEntry)
    requires Falling(top, mid, low)
    ensures DifferWhereDisputed(OfThree(top, mid, low), OfThree(low, top, mid), top, mid, low)
    ensures DifferWhereDisputed(OfThree(top, mid, low), OfThree(top, low, mid), top, mid, low)
  {
    hide *;
    SixFolds(top, mid, low);
    FallingPairs(top, mid, low);
    MiddleLast(top, mid, low);
  }

  /** In the other three orders no number, list or price comes out different. */
  lemma OtherOrdersAgree(top: CollectedEntry, mid: CollectedEntry, low: CollectedEntry)
    requires Falling(top, mid, low)
    ensures SameFields(OfThree(top, mid, low), OfThree(mid, top, low))
    ensures SameFields(OfThree(top, mid, low), OfThree(mid, low, top))
    ensures SameFields(OfThree(top, mid, low), OfThree(low, mid, top))
  {
    assert SameFields(OfThree(top, mid, low), OfThree(top, mid, low));
    hide *;
    SixFolds(top, mid, low);
    FallingPairs(top, mid, low);
    MiddleFirst(top, mid, low);
  }

  // ---- Three reports that show it ---------------------------------------------------------------

  /** A source of one model, and the report of a source that knows only the size of the context. */
  function SourceOf(id: string, priority: int32): CollectedSource {
    CollectedSource("v", "m", id, "", "", false, 0, priority, None, [], None)
  }

  function ReportWith(id: string, priority: int32, context: Option<ContextSpec>): CollectedEntry {
    CollectedEntry(Some(ModelVersion("v", "m", "m", 1, [1], [], [1], [1], context, [], map[])), [], None,
                   [SourceOf(id, priority)])
  }

  predicate Letter(id: string) {
    |id| == 1 && 'a' <= id[0] <= 'z'
  }

  lemma LetterIsStable(id: string)
    requires Letter(id)
    ensures Slugs.VendorSlug(id) == id && Slugs.Stable(Slugs.Vendor, id) && TrimSpace(id) == id
  {
    hide Slugs.Slug, Slugs.Stable, TrimSpace;
    Slugs.WordIsFixed(Slugs.Vendor, id);
    Slugs.VendorSlugIdempotentIff(id);
  }

  lemma NothingToNormalize()
    ensures TrimSpace("") == "" && NormalizeBadges([]) == []
  {
  }

  lemma SourceIsClean(id: string, priority: int32)
    requires Letter(id)
    ensures Normalize(SourceOf(id, priority)) == Some(SourceOf(id, priority)) && StableIDs(SourceOf(id, priority))
  {
    hide Slugs.VendorSlug, Slugs.Stable, TrimSpace, NormalizeBadges;
    LetterIsStable(id);
    LetterIsStable("v");
    LetterIsStable("m");
    NothingToNormalize();
  }

  lemma {:induction false} LoneSourceIsCanonical(s: CollectedSource)
    requires Normalize(s) == Some(s)
    ensures Canonical([s]) == [s]
  {
    hide Normalize;
    var one := [s];
    var m := Merged(one);
    assert one[..|one| - 1] == [];
    AddCleanSource(map[], s);
    assert Merged([]) == map[];
    assert m == map[KeyOf(s) := s];
    RankKeysKnown(m);
    hide Merged;
    var ranks := SortedRanks(m);
    assert Ranks(m) == {RankOf(KeyOf(s), s.authorityPriority)};
    RanksAreOrdered();
    hide RankLess;
    assert |ranks| == 1 && ranks[0] in ranks;
    assert RankKey(ranks[0]) == KeyOf(s);
  }

  lemma ReportIsPrepared(id: string, priority: int32, context: Option<ContextSpec>)
    requires Letter(id)
    ensures Prepared(ReportWith(id, priority, context))
  {
    SourceIsClean(id, priority);
    LoneSourceIsCanonical(SourceOf(id, priority));
    NormalizeBadgesTwice([]);
    hide Canonical, Normalize;
  }

  lemma AuthorityOfReport(id: string, priority: int32, context: Option<ContextSpec>)
    requires Letter(id) && priority > 0
    ensures AuthorityOfEntry(ReportWith(id, priority, context)) == Authority(priority, id)
  {
    var s := SourceOf(id, priority);
    LetterIsStable(id);
    BestIsBest([s]);
    hide Slugs.VendorSlug, Slugs.Stable, Best;
    assert AuthorityOfSource(s) == Authority(priority, id);
  }

  lemma RankedAreTidy(all: seq<CollectedSource>)
    requires forall s | s in all :: Normalize(s) == Some(s) && StableIDs(s) && s.authorityPriority > 0
    ensures Tidy(all)
  {
    hide Normalize, StableIDs, IdentityKey;
  }

  lemma FallingFrom(top: CollectedEntry, mid: CollectedEntry, low: CollectedEntry)
    requires Prepared(top) && Prepared(mid) && Prepared(low)
    requires Higher(AuthorityOfEntry(top), AuthorityOfEntry(mid))
            && Higher(AuthorityOfEntry(top), AuthorityOfEntry(low))
    requires Higher(AuthorityOfEntry(mid), AuthorityOfEntry(low))
    requires forall s | s in top.sources || s in mid.sources || s in low.sources ::
               Normalize(s) == Some(s) && StableIDs(s) && s.authorityPriority > 0
    ensures Falling(top, mid, low)
  {
    hide Prepared, Higher, AuthorityOfEntry, Normalize, StableIDs, AllSources, Tidy;
    var three := [top, mid, low];
    forall s | s in AllSources(three) ensures s in top.sources || s in mid.sources || s in low.sources {
      InAllSources(three, s);
    }
    RankedAreTidy(AllSources(three));
  }

  lemma HigherPriority(a: Authority, b: Authority)
    requires a.priority > b.priority
    ensures Higher(a, b)
  {
  }

  lemma ReportFacts(id: string, priority: int32, context: Option<ContextSpec>)
    requires Letter(id) && priority > 0
    ensures var e := ReportWith(id, priority, context);
            && Prepared(e) && AuthorityOfEntry(e) == Authority(priority, id)
            && forall s | s in e.sources :: Normalize(s) == Some(s) && StableIDs(s) && s.authorityPriority > 0
  {
    ReportIsPrepared(id, priority, context);
    AuthorityOfReport(id, priority, context);
    SourceIsClean(id, priority);
    hide Prepared, AuthorityOfEntry, Normalize, StableIDs, Letter;
  }

  /** Reports of falling authority. */
  lemma LettersFall(a: string, p: int32, x: Option<ContextSpec>, b: string, q: int32, y: Option<ContextSpec>, c: string,
            r: int32, z: Option<ContextSpec>)
    requires Letter(a) && Letter(b) && Letter(c) && p > q > r > 0
    ensures Falling(ReportWith(a, p, x), ReportWith(b, q, y), ReportWith(c, r, z))
  {
    hide *;
    ReportFacts(a, p, x);
    ReportFacts(b, q, y);
    ReportFacts(c, r, z);
    HigherPriority(Authority(p, a), Authority(q, b));
    HigherPriority(Authority(p, a), Authority(r, c));
    HigherPriority(Authority(q, b), Authority(r, c));
    FallingFrom(ReportWith(a, p, x), ReportWith(b, q, y), ReportWith(c, r, z));
  }

  /** Authorities 600, 400 and 100, a context of 4000 tokens in the second and of 1000 in the third: the
      descending fold keeps 4000, and merging 100, 600, 400 in this order keeps 1000. */
  lemma FoldOrderShows() returns (top: CollectedEntry, mid: CollectedEntry, low: CollectedEntry)
    ensures AuthorityOfEntry(top).priority == 600 && AuthorityOfEntry(mid).priority == 400
            && AuthorityOfEntry(low).priority == 100
    ensures Falling(top, mid, low)
    ensures Number(OfThree(top, mid, low), ContextTokens) == 4000
    ensures Number(OfThree(low, top, mid), ContextTokens) == 1000
  {
    hide *;
    var some4, some1 := Some(ContextSpec(4000, 0)), Some(ContextSpec(1000, 0));
    top, mid, low := ReportWith("a", 600, None), ReportWith("b", 400, some4), ReportWith("c", 100, some1);
    ThreeLetters();
    AuthorityOfReport("a", 600, None);
    AuthorityOfReport("b", 400, some4);
    AuthorityOfReport("c", 100, some1);
    LettersFall("a", 600, None, "b", 400, some4, "c", 100, some1);
    ContextOf("a", 600, None);
    ContextOf("b", 400, some4);
    ContextOf("c", 100, some1);
    SixFolds(top, mid, low);
    FallingPairs(top, mid, low);
    ThreeNumbers(top, mid, low, ContextTokens);
    ThreeNumbers(top, low, mid, ContextTokens);
    OrNumbers();
  }

  lemma ThreeLetters()
    ensures Letter("a") && Letter("b") && Letter("c")
  {
  }

  lemma OrNumbers()
    ensures Or(Or(0, 4000, 0), 1000, 0) == 4000 && Or(Or(0, 1000, 0), 4000, 0) == 1000
  {
  }

  lemma ContextOf(id: string, priority: int32, context: Option<ContextSpec>)
    ensures Number(ReportWith(id, priority, context), ContextTokens)
            == if context.Some? then context.value.maxContextTokens else 0
  {
  }
}
