/** What the sync path hands to the registry (model_registry_entry.go, store/codec.go): the sources
    of an entry become observations, one per source, source model id and directness. */
module RegistryEntries {
  import opened Text
  import opened Slugs
  import opened EntryMerge
  import opened MergedFields
  import opened CollectedSources
  import SourceAuthority
  import opened AuthorityFold

  datatype RegistrySource = RegistrySource(
    sourceID: string,
    kind: int,
    isDirect: bool,
    sourceModelID: string,
    definition: Option<ModelVersion>,
    badges: seq<string>,
    pricing: Option<PricingSummary>)

  datatype RegistryEntry = RegistryEntry(
    definition: Option<ModelVersion>,
    badges: seq<string>,
    pricing: Option<PricingSummary>,
    sources: seq<RegistrySource>)

  function NormalizeRegistrySource(s: RegistrySource): RegistrySource {
    s.(sourceID := VendorSlug(s.sourceID), sourceModelID := TrimSpace(s.sourceModelID),
       badges := NormalizeBadges(s.badges), pricing := NormalizePricing(s.pricing))
  }

  /** Normalising an observation makes its source a slug, trims its model id and its prices, keeps the known
      badges, and changes nothing else. */
  lemma NormalizedObservation(s: RegistrySource)
    ensures var n := NormalizeRegistrySource(s);
            && n.sourceID == VendorSlug(s.sourceID) && n.sourceModelID == TrimSpace(s.sourceModelID)
            && n.kind == s.kind && n.isDirect == s.isDirect && n.definition == s.definition
            && (forall b :: b in n.badges <==> IsBadgeOf(s.badges, b))
            && (n.pricing.Some? <==> Usable(s.pricing))
            && (forall field :: Price(n.pricing, field) == Said(s.pricing, field))
            && PriceType(n.pricing) == SaidType(s.pricing)
  {
    NormalizedBadges(s.badges);
    NormalizedPricing(s.pricing);
    NormalizedSays(s.pricing, Input);
    hide IsBadgeOf, NormalizeBadges, NormalizePricing, Usable, Said, SaidType, VendorSlug, TrimSpace;
    forall field ensures Price(NormalizePricing(s.pricing), field) == Said(s.pricing, field) {
      NormalizedSays(s.pricing, field);
    }
  }

  // ---- Observations of collected sources --------------------------------------------------------

  function SpecSourceDefinition(s: CollectedSource): Option<ModelVersion> {
    if s.definition.Some? then s.definition else
      var v, m, name := VendorSlug(s.vendorID), TrimSpace(s.modelID), TrimSpace(s.displayName);
      if v == "" || m == "" then None
      else Some(ModelVersion(v, m, name, 0, [], [], [], [], None, [], map[]))
  }

  function SpecSourceModelID(s: CollectedSource, definition: Option<ModelVersion>): string {
    if !Blank(s.sourceModelID) then TrimSpace(s.sourceModelID)
    else if definition.Some? then TrimSpace(definition.value.modelID)
    else TrimSpace(s.modelID)
  }

  function RegistrySourceOf(s: CollectedSource): RegistrySource {
    var definition := SpecSourceDefinition(s);
    NormalizeRegistrySource(RegistrySource(s.sourceID, s.kind, s.isDirect, SpecSourceModelID(s, definition),
                                           definition, NormalizeBadges(s.badges), NormalizePricing(s.pricing)))
  }

  /** The registry sources of already normalised sources. */
  function RegistrySourcesOf(sources: seq<CollectedSource>): seq<RegistrySource> {
    if sources == [] then [] else
      var init, last := RegistrySourcesOf(sources[..|sources| - 1]), Normalize(sources[|sources| - 1]);
      match last
      case None => init
      case Some(s) => init + [RegistrySourceOf(s)]
  }

  method ProtoRegistrySourcesFromCollectedSources(sources: seq<CollectedSource>) returns (out: seq<RegistrySource>)
    ensures WellFormed(sources) ==> out == RegistrySourcesOf(Canonical(sources))
  {
    hide WellFormed, Canonical, Normalize, RegistrySourceOf;
    var normalized := NormalizeCollectedSources(sources);
    out := [];
    for i := 0 to |normalized|
      invariant out == RegistrySourcesOf(normalized[..i])
    {
      assert normalized[..i + 1][..i] == normalized[..i];
      var source := Normalize(normalized[i]);
      if source.Some? { out := out + [RegistrySourceOf(source.value)]; }
    }
    assert normalized[..|normalized|] == normalized;
  }

  ghost function EntryFor(e: CollectedEntry): RegistryEntry {
    RegistryEntry(e.definition, NormalizeBadges(e.badges), NormalizePricing(e.pricing),
                  RegistrySourcesOf(Canonical(e.sources)))
  }

  /** Whatever the entry holds, its registry entry has its definition, its known badges, and its prices,
      trimmed, unless it names none. */
  lemma EntryKeeps(e: CollectedEntry)
    ensures var r := EntryFor(e);
            && r.definition == e.definition
            && (forall b :: b in r.badges <==> IsBadgeOf(e.badges, b))
            && (r.pricing.Some? <==> Usable(e.pricing))
            && (forall field :: Price(r.pricing, field) == Said(e.pricing, field))
            && PriceType(r.pricing) == SaidType(e.pricing)
  {
    NormalizedBadges(e.badges);
    NormalizedPricing(e.pricing);
    NormalizedSays(e.pricing, Input);
    hide IsBadgeOf, NormalizeBadges, NormalizePricing, Usable, Said, SaidType, Canonical, RegistrySourcesOf;
    forall field ensures Price(NormalizePricing(e.pricing), field) == Said(e.pricing, field) {
      NormalizedSays(e.pricing, field);
    }
  }

  method NewModelRegistryEntry(e: CollectedEntry) returns (r: RegistryEntry)
    ensures WellFormed(e.sources) ==> r == EntryFor(e)
    ensures r.definition == e.definition
  {
    hide WellFormed, Canonical, NormalizeBadges, NormalizePricing, RegistrySourcesOf;
    var badges := NormalizeDefinitionSourceBadges(e.badges);
    var sources := ProtoRegistrySourcesFromCollectedSources(e.sources);
    r := RegistryEntry(e.definition, badges, NormalizePricing(e.pricing), sources);
  }

  // ---- Normalised observations ------------------------------------------------------------------

  datatype ObservationKey = ObservationKey(sourceID: string, sourceModelID: string, isDirect: bool)

  function KeyOfObservation(s: RegistrySource): ObservationKey {
    ObservationKey(s.sourceID, s.sourceModelID, s.isDirect)
  }

  function KeyOfRaw(s: RegistrySource): ObservationKey {
    KeyOfObservation(NormalizeRegistrySource(s))
  }

  predicate Observed(sources: seq<RegistrySource>, k: ObservationKey) {
    exists s :: s in sources && KeyOfObservation(s) == k
  }

  /** Per key the first source, blank source ids dropped. */
  function NormalizeObservations(sources: seq<RegistrySource>): seq<RegistrySource> {
    if sources == [] then [] else
      var init, last := NormalizeObservations(sources[..|sources| - 1]),
          NormalizeRegistrySource(sources[|sources| - 1]);
      if last.sourceID == "" || Observed(init, KeyOfObservation(last)) then init
      else init + [last]
  }

  method NormalizeRegistryObservations(sources: seq<RegistrySource>) returns (out: seq<RegistrySource>)
    ensures out == NormalizeObservations(sources)
  {
    hide NormalizeRegistrySource;
    out := [];
    var seen: set<ObservationKey> := {};
    for i := 0 to |sources|
      invariant out == NormalizeObservations(sources[..i])
      invariant forall k :: k in seen <==> Observed(out, k)
    {
      assert sources[..i + 1][..i] == sources[..i];
      var normalized := NormalizeRegistrySource(sources[i]);
      if normalized.sourceID == "" || KeyOfObservation(normalized) in seen { continue; }
      assert forall s :: s in out + [normalized] <==> s in out || s == normalized;
      seen := seen + {KeyOfObservation(normalized)};
      out := out + [normalized];
    }
    assert sources[..|sources|] == sources;
  }

  ghost predicate DistinctKeys(s: seq<RegistrySource>) {
    forall i, j | 0 <= i < j < |s| :: KeyOfObservation(s[i]) != KeyOfObservation(s[j])
  }

  lemma DistinctSnoc(s: seq<RegistrySource>, x: RegistrySource)
    requires DistinctKeys(s) && !Observed(s, KeyOfObservation(x))
    ensures DistinctKeys(s + [x])
  {
    forall i | 0 <= i < |s| ensures KeyOfObservation(s[i]) != KeyOfObservation(x) { assert s[i] in s; }
  }

  lemma {:induction false} ObservationsAreDistinct(sources: seq<RegistrySource>)
    ensures DistinctKeys(NormalizeObservations(sources))
    decreases |sources|
  {
    hide NormalizeRegistrySource, DistinctKeys, Observed;
    if sources == [] {
      assert DistinctKeys([]) by { NoneDistinct(); }
    } else {
      var before, last := NormalizeObservations(sources[..|sources| - 1]),
          NormalizeRegistrySource(sources[|sources| - 1]);
      ObservationsAreDistinct(sources[..|sources| - 1]);
      if !Observed(before, KeyOfObservation(last)) { DistinctSnoc(before, last); }
    }
  }

  lemma NoneDistinct()
    ensures DistinctKeys([])
  {
  }

  /** The keys are exactly those of the sources that name a source. */
  lemma {:induction false} ObservationKeys(sources: seq<RegistrySource>, k: ObservationKey)
    ensures Observed(NormalizeObservations(sources), k)
            <==> k.sourceID != "" && exists s :: s in sources && KeyOfRaw(s) == k
    decreases |sources|
  {
    hide NormalizeRegistrySource;
    if sources != [] {
      var init, last := sources[..|sources| - 1], sources[|sources| - 1];
      assert forall s :: s in sources <==> s in init || s == last;
      ObservationKeys(init, k);
      var before, n := NormalizeObservations(init), NormalizeRegistrySource(last);
      assert forall s :: s in before + [n] <==> s in before || s == n;
      assert KeyOfRaw(last) == KeyOfObservation(n);
      if n.sourceID != "" && KeyOfObservation(n) == k { assert Observed(NormalizeObservations(sources), k); }
    }
  }

  // ---- Effective source model ids ---------------------------------------------------------------

  /** The triple under which a normalised collected source is observed. */
  function ObservedAs(s: CollectedSource): ObservationKey {
    ObservationKey(s.sourceID, SpecSourceModelID(s, SpecSourceDefinition(s)), s.isDirect)
  }

  /** A normalised source has no effective model id exactly when it names none and carries a
      definition that names none. */
  lemma EffectiveIDIsBlankIff(s: CollectedSource)
    requires Normalize(s) == Some(s)
    ensures ObservedAs(s).sourceModelID == ""
            <==> s.sourceModelID == "" && s.definition.Some? && Blank(s.definition.value.modelID)
  {
    CleanFields(s);
    hide VendorSlug, TrimSpace, Normalize;
  }

  lemma CleanFields(s: CollectedSource)
    requires Normalize(s) == Some(s)
    ensures VendorSlug(s.vendorID) == s.vendorID != "" && VendorSlug(s.sourceID) == s.sourceID != ""
    ensures TrimSpace(s.modelID) == s.modelID != "" && TrimSpace(s.sourceModelID) == s.sourceModelID
  {
    hide VendorSlug, TrimSpace, NormalizeBadges, NormalizePricing;
  }

  lemma ObservedKey(s: CollectedSource)
    requires Normalize(s) == Some(s)
    ensures KeyOfRaw(RegistrySourceOf(s)) == ObservedAs(s)
  {
    CleanFields(s);
    var id := SpecSourceModelID(s, SpecSourceDefinition(s));
    TrimTwice(s.sourceModelID);
    TrimTwice(s.modelID);
    if s.definition.Some? { TrimTwice(s.definition.value.modelID); }
    hide VendorSlug, TrimSpace, NormalizeBadges, NormalizePricing, Normalize;
  }

  // ---- What an observation records --------------------------------------------------------------

  /** A normalised source is observed under its id, its directness and the model id it names, or else its
      definition's, or else the model's. */
  predicate IsUnder(s: CollectedSource, k: ObservationKey) {
    && k.sourceID == s.sourceID && k.isDirect == s.isDirect
    && k.sourceModelID == (if s.sourceModelID != "" then s.sourceModelID
                           else if s.definition.Some? then TrimSpace(s.definition.value.modelID) else s.modelID)
  }

  lemma ObservedUnder(s: CollectedSource, k: ObservationKey)
    requires Normalize(s) == Some(s)
    ensures IsUnder(s, k) <==> ObservedAs(s) == k
  {
    CleanFields(s);
    hide VendorSlug, TrimSpace, Normalize;
  }

  /** The observation of a normalised source: its key, kind, badges and prices, and its definition, or else one
      of nothing but vendor, model and name. */
  ghost predicate Records(s: CollectedSource, o: RegistrySource) {
    && IsUnder(s, KeyOfObservation(o)) && o.kind == s.kind && o.badges == s.badges && o.pricing == s.pricing
    && o.definition == (if s.definition.Some? then s.definition
                        else Some(ModelVersion(s.vendorID, s.modelID, s.displayName, 0, [], [], [], [], None, [],
                                               map[])))
  }

  lemma CleanIsRecorded(s: CollectedSource)
    requires Normalize(s) == Some(s)
    ensures Records(s, RegistrySourceOf(s)) && NormalizeRegistrySource(RegistrySourceOf(s)) == RegistrySourceOf(s)
  {
    CleanFields(s);
    CleanContents(s);
    ObservedKey(s);
    ObservedUnder(s, ObservedAs(s));
    TrimTwice(s.sourceModelID);
    TrimTwice(s.modelID);
    if s.definition.Some? { TrimTwice(s.definition.value.modelID); }
    hide VendorSlug, TrimSpace, NormalizeBadges, NormalizePricing, Normalize, ObservedAs, IsUnder;
  }

  lemma CleanContents(s: CollectedSource)
    requires Normalize(s) == Some(s)
    ensures NormalizeBadges(s.badges) == s.badges && NormalizePricing(s.pricing) == s.pricing
    ensures TrimSpace(s.displayName) == s.displayName
  {
    hide VendorSlug, TrimSpace, NormalizeBadges, NormalizePricing;
  }

  lemma {:induction false} RecordedInOrder(sources: seq<CollectedSource>)
    requires forall s | s in sources :: Normalize(s) == Some(s)
    ensures var out := RegistrySourcesOf(sources);
            |out| == |sources| && forall i | 0 <= i < |out| :: out[i] == RegistrySourceOf(sources[i])
    decreases |sources|
  {
    hide Normalize, RegistrySourceOf;
    if sources != [] {
      var init, last := sources[..|sources| - 1], sources[|sources| - 1];
      assert last in sources;
      RecordedInOrder(init);
    }
  }

  /** The first source of the list with its key. */
  ghost predicate IsFirstOf(sources: seq<RegistrySource>, i: int) {
    0 <= i < |sources| && forall j | 0 <= j < i :: KeyOfRaw(sources[j]) != KeyOfRaw(sources[i])
  }

  lemma FirstOfMore(init: seq<RegistrySource>, last: RegistrySource, i: int)
    requires IsFirstOf(init, i)
    ensures IsFirstOf(init + [last], i) && (init + [last])[i] == init[i]
  {
    hide KeyOfRaw;
  }

  lemma LastIsFirst(init: seq<RegistrySource>, last: RegistrySource)
    requires forall s | s in init :: KeyOfRaw(s) != KeyOfRaw(last)
    ensures IsFirstOf(init + [last], |init|)
  {
    hide KeyOfRaw;
  }

  /** Of several sources with one key the first is observed. */
  lemma {:induction false} FirstIsObserved(sources: seq<RegistrySource>, o: RegistrySource) returns (i: int)
    requires o in NormalizeObservations(sources)
    ensures IsFirstOf(sources, i) && o == NormalizeRegistrySource(sources[i])
    decreases |sources|
  {
    hide NormalizeRegistrySource, IsFirstOf, KeyOfRaw, KeyOfObservation, Observed;
    var init, last := sources[..|sources| - 1], sources[|sources| - 1];
    assert sources == init + [last];
    if o in NormalizeObservations(init) {
      i := FirstIsObserved(init, o);
      FirstOfMore(init, last, i);
    } else {
      i := |init|;
      NotObservedBefore(init, last);
      LastIsFirst(init, last);
    }
  }

  lemma NotObservedBefore(init: seq<RegistrySource>, last: RegistrySource)
    requires NormalizeRegistrySource(last).sourceID != ""
    requires !Observed(NormalizeObservations(init), KeyOfObservation(NormalizeRegistrySource(last)))
    ensures forall s | s in init :: KeyOfRaw(s) != KeyOfRaw(last)
  {
    ObservationKeys(init, KeyOfRaw(last));
    hide NormalizeRegistrySource, NormalizeObservations;
  }

  /** What is observed of a collected entry: under every triple the first of its sources that have it. */
  lemma ObservationRecords(e: CollectedEntry, o: RegistrySource) returns (i: int)
    requires WellFormed(e.sources) && o in NormalizeObservations(EntryFor(e).sources)
    ensures var clean := Canonical(e.sources);
            && 0 <= i < |clean| && Records(clean[i], o) && KeyOfObservation(o) == ObservedAs(clean[i])
            && forall j | 0 <= j < i :: ObservedAs(clean[j]) != ObservedAs(clean[i])
  {
    var clean := Canonical(e.sources);
    CleanCanonical(e.sources);
    RecordedInOrder(clean);
    hide Canonical, WellFormed, Normalize, NormalizeBadges, NormalizePricing, NormalizeObservations, RegistrySourceOf,
      NormalizeRegistrySource, Records, RegistrySourcesOf, ObservedAs;
    i := FirstIsObserved(EntryFor(e).sources, o);
    CleanIsRecorded(clean[i]);
    forall j | 0 <= j <= i ensures KeyOfRaw(RegistrySourceOf(clean[j])) == ObservedAs(clean[j]) {
      assert clean[j] in clean;
      ObservedKey(clean[j]);
    }
  }

  lemma {:induction false} SourcesOfClean(sources: seq<CollectedSource>, k: ObservationKey)
    requires forall s | s in sources :: Normalize(s) == Some(s)
    ensures (exists r :: r in RegistrySourcesOf(sources) && KeyOfRaw(r) == k)
            <==> exists s :: s in sources && ObservedAs(s) == k
    decreases |sources|
  {
    hide Normalize, KeyOfRaw, RegistrySourceOf, ObservedAs;
    if sources != [] {
      var init, last := sources[..|sources| - 1], sources[|sources| - 1];
      assert forall s :: s in sources <==> s in init || s == last;
      SourcesOfClean(init, k);
      ObservedKey(last);
      var before, r := RegistrySourcesOf(init), RegistrySourceOf(last);
      assert forall x :: x in before + [r] <==> x in before || x == r;
    }
  }

  /** The observations of a collected entry are, each once, the triples of its sources. */
  lemma ObservationsOfEntry(e: CollectedEntry, k: ObservationKey)
    requires WellFormed(e.sources)
    ensures var out := NormalizeObservations(EntryFor(e).sources);
            Observed(out, k) <==> exists s :: s in Canonical(e.sources) && ObservedAs(s) == k
  {
    var clean := Canonical(e.sources);
    CleanCanonical(e.sources);
    SourcesOfClean(clean, k);
    ObservationKeys(RegistrySourcesOf(clean), k);
    hide Canonical, WellFormed, Normalize, NormalizeObservations, RegistrySourcesOf, KeyOfRaw, NormalizeBadges,
      NormalizePricing;
    forall s | s in clean ensures ObservedAs(s).sourceID != "" { CleanFields(s); }
    hide ObservedAs;
  }

  lemma CleanCanonical(sources: seq<CollectedSource>)
    requires WellFormed(sources)
    ensures forall s | s in Canonical(sources) :: Normalize(s) == Some(s)
  {
    SourceAuthority.CanonicalLists(sources);
    hide Canonical, Merged, Normalize, WellFormed, IdentityKey, KeyOf;
  }
}
