/** The snapshot a sync run collects (sync/snapshot.go, sync/vendor_support.go, entry_defaults.go):
    reports become candidates, candidates are merged per model. Whether a definition is valid is
    decided outside this model; it is a parameter. */
module Snapshot {
  import opened Text
  import opened Ordering
  import opened Slugs
  import opened EntryMerge
  import opened MergedFields
  import opened CollectedSources
  import opened SourceAuthority
  import opened AuthorityFold
  import opened Identities

  /** Proto numbers of the default shape and modality. */
  const CHAT_COMPLETIONS: int := 1
  const TEXT: int := 1

  function WithDefaults(d: ModelVersion): ModelVersion {
    var shape := Or(d.primaryShape, CHAT_COMPLETIONS, 0);
    d.(primaryShape := shape,
       supportedShapes := Or(d.supportedShapes, [shape], []),
       inputModalities := Or(d.inputModalities, [TEXT], []),
       outputModalities := Or(d.outputModalities, [TEXT], []))
  }

  /** The definition a vendor's report stands for, or nothing if it is unusable. */
  function Candidate(vendorID: string, source: Option<ModelVersion>,
            valid: ModelVersion -> bool): Option<ModelVersion> {
    if source.None? then None else
      var d, id, vendor := source.value, TrimSpace(source.value.modelID), TrimSpace(vendorID);
      var own := TrimSpace(d.vendorID);
      if id == "" || (own != "" && own != vendor) then None else
        var named := d.(modelID := id,
                        vendorID := if own == "" then vendor else d.vendorID,
                        displayName := if Blank(d.displayName) then id else d.displayName);
        if valid(WithDefaults(named)) then Some(WithDefaults(named)) else None
  }

  method VendorSupportDefinitionCandidate(vendorID: string, source: Option<ModelVersion>, valid: ModelVersion -> bool)
    returns (r: Option<ModelVersion>)
    ensures r == Candidate(vendorID, source, valid)
  {
    hide TrimSpace;
    if source.None? { return None; }
    var definition := source.value;
    var canonicalID := TrimSpace(definition.modelID);
    if canonicalID == "" { return None; }
    definition := definition.(modelID := canonicalID);
    var supportVendorID, sourceVendorID := TrimSpace(vendorID), TrimSpace(definition.vendorID);
    if sourceVendorID == "" {
      definition := definition.(vendorID := supportVendorID);
    } else if sourceVendorID != supportVendorID {
      return None;
    }
    if TrimSpace(definition.displayName) == "" { definition := definition.(displayName := canonicalID); }
    if definition.primaryShape == 0 { definition := definition.(primaryShape := CHAT_COMPLETIONS); }
    if definition.supportedShapes == [] { definition := definition.(supportedShapes := [definition.primaryShape]); }
    if definition.inputModalities == [] { definition := definition.(inputModalities := [TEXT]); }
    if definition.outputModalities == [] { definition := definition.(outputModalities := [TEXT]); }
    if !valid(definition) { return None; }
    r := Some(definition);
  }

  /** `c` is the reported definition, completed: the trimmed model id, the own vendor id or else the vendor's,
      the own name or else the model id, the own shape, shapes and modalities or else the defaults, a missing
      list of shapes being the shape alone. Everything else is as reported. */
  ghost predicate Completes(vendorID: string, d: ModelVersion, c: ModelVersion) {
    && c.modelID == TrimSpace(d.modelID)
    && c.vendorID == (if Blank(d.vendorID) then TrimSpace(vendorID) else d.vendorID)
    && c.displayName == (if Blank(d.displayName) then c.modelID else d.displayName)
    && c.primaryShape == (if d.primaryShape == 0 then CHAT_COMPLETIONS else d.primaryShape)
    && c.supportedShapes == (if d.supportedShapes == [] then [c.primaryShape] else d.supportedShapes)
    && c.inputModalities == (if d.inputModalities == [] then [TEXT] else d.inputModalities)
    && c.outputModalities == (if d.outputModalities == [] then [TEXT] else d.outputModalities)
    && c.contextSpec == d.contextSpec && c.capabilities == d.capabilities && c.aliases == d.aliases
    && c.others == d.others
  }

  /** An accepted definition is the reported one, completed. It is refused exactly if there is none, its model
      id is blank, it names another vendor, or its completion is invalid. */
  lemma CandidateIsCompletion(vendorID: string, source: Option<ModelVersion>, valid: ModelVersion -> bool)
    ensures var c := Candidate(vendorID, source, valid);
            && (c.Some? ==> source.Some? && Completes(vendorID, source.value, c.value))
            && (c.None? <==> || source.None? || Blank(source.value.modelID)
                             || (!Blank(source.value.vendorID)
                                 && TrimSpace(source.value.vendorID) != TrimSpace(vendorID))
                             || exists x :: Completes(vendorID, source.value, x) && !valid(x))
  {
    hide TrimSpace;
    if source.Some? {
      var d := source.value;
      var id := TrimSpace(d.modelID);
      var named := d.(modelID := id, vendorID := if Blank(d.vendorID) then TrimSpace(vendorID) else d.vendorID,
                      displayName := if Blank(d.displayName) then id else d.displayName);
      assert Completes(vendorID, d, WithDefaults(named));
    }
  }

  /** What a report of `vendorID` contributes to the snapshot. */
  ghost function Report(vendorID: string, item: CollectedEntry, valid: ModelVersion -> bool): Option<CollectedEntry> {
    var candidate := Candidate(vendorID, item.definition, valid);
    if IdentityOf(candidate).None? then None
    else Some(CollectedEntry(candidate, NormalizeBadges(item.badges), NormalizePricing(item.pricing),
                             Canonical(item.sources)))
  }

  /** An accepted report is kept under its completed definition, with its known badges, its trimmed prices and
      its sources normalised; it is refused with its definition, or without a vendor to store it under. */
  lemma ReportKeeps(vendorID: string, item: CollectedEntry, valid: ModelVersion -> bool)
    ensures var e, c := Report(vendorID, item, valid), Candidate(vendorID, item.definition, valid);
            && (e.None? <==> c.None? || (Blank(vendorID) && Blank(item.definition.value.vendorID)))
            && (e.Some? ==>
                  && item.definition.Some? && e.value.definition.Some?
                  && Completes(vendorID, item.definition.value, e.value.definition.value)
                  && (forall b :: b in e.value.badges <==> IsBadgeOf(item.badges, b))
                  && (forall field :: Price(e.value.pricing, field) == Said(item.pricing, field))
                  && PriceType(e.value.pricing) == SaidType(item.pricing)
                  && (e.value.pricing.Some? <==> Usable(item.pricing))
                  && e.value.sources == Canonical(item.sources))
  {
    CandidateIsCompletion(vendorID, item.definition, valid);
    NormalizedBadges(item.badges);
    NormalizedPricing(item.pricing);
    forall field ensures Price(NormalizePricing(item.pricing), field) == Said(item.pricing, field) {
      NormalizedSays(item.pricing, field);
    }
    if item.definition.Some? {
      TrimTwice(item.definition.value.modelID);
      TrimTwice(vendorID);
    }
    hide TrimSpace, Lower, NormalizeBadges, NormalizePricing, Canonical, Said, SaidType, Usable;
    NormalizedSays(item.pricing, Input);
  }

  type Definitions = map<SurfaceIdentity, CollectedEntry>

  function At(m: Definitions, k: SurfaceIdentity): Option<CollectedEntry> {
    if k in m then Some(m[k]) else None
  }

  ghost function Join(current: Option<CollectedEntry>, e: CollectedEntry): CollectedEntry {
    if current.Some? then MergeEntries(current.value, e) else e
  }

  ghost function AddItem(m: Definitions, vendorID: string, item: CollectedEntry,
            valid: ModelVersion -> bool): Definitions {
    var e := Report(vendorID, item, valid);
    if e.None? then m else
      var k := IdentityOf(e.value.definition).value;
      m[k := Join(At(m, k), e.value)]
  }

  ghost function AddItems(m: Definitions, vendorID: string, items: seq<CollectedEntry>,
            valid: ModelVersion -> bool): Definitions {
    if items == [] then m
    else AddItem(AddItems(m, vendorID, items[..|items| - 1], valid), vendorID, items[|items| - 1], valid)
  }

  // ---- Plain sources ----------------------------------------------------------------------------

  /** Sources as collectors write them: stable identifiers, no negative priority. */
  ghost predicate Plain(sources: seq<CollectedSource>) {
    forall s | s in sources :: StableIDs(s) && s.authorityPriority >= 0
  }

  ghost predicate PlainDefinitions(m: Definitions) {
    forall k | k in m :: Plain(m[k].sources)
  }

  ghost predicate PlainItems(items: seq<CollectedEntry>) {
    forall e | e in items :: Plain(e.sources)
  }

  lemma PlainIsWellFormed(sources: seq<CollectedSource>)
    requires Plain(sources)
    ensures WellFormed(sources)
  {
    hide StableIDs;
  }

  lemma PlainConcat(a: seq<CollectedSource>, b: seq<CollectedSource>)
    requires Plain(a) && Plain(b)
    ensures Plain(a + b) && WellFormed(a + b)
  {
    hide StableIDs;
  }

  lemma CleanIsStable(s: CollectedSource)
    requires Normalize(s) == Some(s)
    ensures StableIDs(s)
  {
    CleanIDs(s);
    VendorSlugIdempotentIff(s.vendorID);
    VendorSlugIdempotentIff(s.sourceID);
    hide VendorSlug, Slugs.Stable, Normalize;
  }

  lemma CleanIDs(s: CollectedSource)
    requires Normalize(s) == Some(s)
    ensures VendorSlug(s.vendorID) == s.vendorID && VendorSlug(s.sourceID) == s.sourceID
  {
    hide VendorSlug, TrimSpace, NormalizeBadges, NormalizePricing;
  }

  /** Normalising keeps sources plain. */
  lemma CanonicalIsPlain(sources: seq<CollectedSource>)
    requires Plain(sources)
    ensures Plain(Canonical(sources))
  {
    PlainIsWellFormed(sources);
    CanonicalLists(sources);
    hide StableIDs, Merged, Canonical, Normalize, WellFormed, IsTopPriority, KeyOf;
    forall s | s in Canonical(sources) ensures StableIDs(s) && s.authorityPriority >= 0 {
      CleanIsStable(s);
      MergedPriority(sources, KeyOf(s));
      TopIsReported(sources, KeyOf(s), s.authorityPriority);
    }
  }

  lemma TopIsReported(sources: seq<CollectedSource>, k: Key, p: int)
    requires Plain(sources) && IsTopPriority(sources, k, p)
    ensures p >= 0
  {
    hide StableIDs, IdentityKey;
  }

  lemma MergeEntriesIsPlain(p: CollectedEntry, f: CollectedEntry)
    requires Plain(p.sources) && Plain(f.sources)
    ensures Plain(MergeEntries(p, f).sources)
    ensures WellFormed(p.sources + f.sources)
  {
    hide StableIDs, Canonical, Plain, WellFormed, MergeDefinitions, MergeBadges, MergePricing, AuthorityOfEntry;
    PlainConcat(p.sources, f.sources);
    PlainConcat(f.sources, p.sources);
    CanonicalIsPlain(p.sources + f.sources);
    CanonicalIsPlain(f.sources + p.sources);
  }

  lemma JoinIsPlain(m: Definitions, k: SurfaceIdentity, e: CollectedEntry)
    requires PlainDefinitions(m) && Plain(e.sources)
    ensures PlainDefinitions(m[k := Join(At(m, k), e)])
  {
    hide Plain, MergeEntries;
    if k in m { MergeEntriesIsPlain(m[k], e); }
  }

  lemma AddItemIsPlain(m: Definitions, vendorID: string, item: CollectedEntry, valid: ModelVersion -> bool)
    requires PlainDefinitions(m) && Plain(item.sources)
    ensures PlainDefinitions(AddItem(m, vendorID, item, valid))
  {
    var e := Report(vendorID, item, valid);
    hide Plain, Candidate, IdentityOf, Join, Canonical, NormalizeBadges, NormalizePricing, PlainDefinitions;
    CanonicalIsPlain(item.sources);
    if e.Some? { JoinIsPlain(m, IdentityOf(e.value.definition).value, e.value); }
  }

  // ---- Merging groups ---------------------------------------------------------------------------

  type Groups = map<string, seq<CollectedEntry>>

  ghost predicate PlainGroups(grouped: Groups) {
    forall v | v in grouped :: PlainItems(grouped[v])
  }

  /** The vendors with reports. */
  function Reporting(grouped: Groups): set<string> {
    set v | v in grouped && grouped[v] != []
  }

  predicate TrimmedVendors(grouped: Groups) {
    forall v | v in grouped :: TrimSpace(v) == v
  }

  /** What merging leaves for a model: the reports of its vendor, added in list order. */
  ghost function MergedAt(before: Definitions, grouped: Groups, valid: ModelVersion -> bool,
            k: SurfaceIdentity): Option<CollectedEntry> {
    if k.vendorID in grouped then At(AddItems(before, k.vendorID, grouped[k.vendorID], valid), k) else At(before, k)
  }

  ghost predicate IsMerge(before: Definitions, grouped: Groups, valid: ModelVersion -> bool, after: Definitions) {
    forall k :: At(after, k) == MergedAt(before, grouped, valid, k)
  }

  /** Merging is a function of its inputs: the order in which the groups are visited is invisible. */
  lemma MergeIsDeterministic(before: Definitions, grouped: Groups, valid: ModelVersion -> bool, a: Definitions,
            b: Definitions)
    requires IsMerge(before, grouped, valid, a) && IsMerge(before, grouped, valid, b)
    ensures a == b
  {
    hide MergedAt;
    forall k ensures k in a <==> k in b { assert At(a, k) == At(b, k); }
    forall k | k in a ensures a[k] == b[k] { assert At(a, k) == At(b, k); }
  }

  lemma ReportIdentity(vendorID: string, item: CollectedEntry, valid: ModelVersion -> bool)
    ensures var e := Report(vendorID, item, valid);
            e.Some? ==> IdentityOf(e.value.definition).Some?
                        && IdentityOf(e.value.definition).value.vendorID == TrimSpace(vendorID)
  {
    TrimTwice(vendorID);
    hide TrimSpace, NormalizeBadges, NormalizePricing, Canonical;
  }

  lemma AddItemAt(m: Definitions, n: Definitions, vendorID: string, item: CollectedEntry,
            valid: ModelVersion -> bool, k: SurfaceIdentity)
    requires At(m, k) == At(n, k)
    ensures At(AddItem(m, vendorID, item, valid), k) == At(AddItem(n, vendorID, item, valid), k)
    ensures k.vendorID != TrimSpace(vendorID) ==> At(AddItem(m, vendorID, item, valid), k) == At(m, k)
  {
    ReportIdentity(vendorID, item, valid);
    hide TrimSpace, Report, IdentityOf, Join;
  }

  /** A group touches only the models of its vendor, and each of them on its own. */
  lemma {:induction false} AddItemsAt(m: Definitions, n: Definitions, vendorID: string, items: seq<CollectedEntry>,
            valid: ModelVersion -> bool, k: SurfaceIdentity)
    requires At(m, k) == At(n, k)
    ensures At(AddItems(m, vendorID, items, valid), k) == At(AddItems(n, vendorID, items, valid), k)
    ensures k.vendorID != TrimSpace(vendorID) ==> At(AddItems(m, vendorID, items, valid), k) == At(m, k)
    decreases |items|
  {
    hide TrimSpace, AddItem;
    if items != [] {
      var init, last := items[..|items| - 1], items[|items| - 1];
      AddItemsAt(m, n, vendorID, init, valid, k);
      AddItemAt(AddItems(m, vendorID, init, valid), AddItems(n, vendorID, init, valid), vendorID, last, valid, k);
    }
  }

  lemma {:induction false} AddItemsIsPlain(m: Definitions, vendorID: string, items: seq<CollectedEntry>,
            valid: ModelVersion -> bool)
    requires PlainDefinitions(m) && PlainItems(items)
    ensures PlainDefinitions(AddItems(m, vendorID, items, valid))
    decreases |items|
  {
    hide PlainDefinitions, Plain, AddItem;
    if items != [] {
      var init, last := items[..|items| - 1], items[|items| - 1];
      assert forall e :: e in items <==> e in init || e == last;
      AddItemsIsPlain(m, vendorID, init, valid);
      AddItemIsPlain(AddItems(m, vendorID, init, valid), vendorID, last, valid);
    }
  }

  /** Merging one more vendor's group into a partly merged snapshot. */
  lemma GroupMerged(before: Definitions, sofar: Definitions, grouped: Groups, done: set<string>, v: string,
            valid: ModelVersion -> bool)
    requires v in grouped && v !in done && TrimSpace(v) == v
    requires PartlyMerged(before, sofar, grouped, done, valid)
    ensures PartlyMerged(before, AddItems(sofar, v, grouped[v], valid), grouped, done + {v}, valid)
  {
    hide TrimSpace, AddItems;
    forall k ensures At(AddItems(sofar, v, grouped[v], valid), k)
                     == if k.vendorID in done + {v} then MergedAt(before, grouped, valid, k) else At(before, k)
    {
      if k.vendorID == v {
        AddItemsAt(sofar, before, v, grouped[v], valid, k);
      } else {
        AddItemsAt(sofar, sofar, v, grouped[v], valid, k);
      }
    }
  }

  ghost predicate PartlyMerged(before: Definitions, sofar: Definitions, grouped: Groups, done: set<string>,
            valid: ModelVersion -> bool) {
    forall k :: At(sofar, k) == if k.vendorID in done then MergedAt(before, grouped, valid, k) else At(before, k)
  }

  // ---- Reports with any sources -----------------------------------------------------------------

  /** A list of the merged sources, in the canonical order where there is one. */
  ghost predicate IsNormalized(sources: seq<CollectedSource>, out: seq<CollectedSource>) {
    |out| == |Merged(sources)| && ListsMerged(sources, out) && (WellFormed(sources) ==> out == Canonical(sources))
  }

  /** A merge of two entries, up to the order of sources that have none. */
  ghost predicate IsMerged(p: CollectedEntry, f: CollectedEntry, r: CollectedEntry) {
    && r.(sources := []) == MergeEntries(p, f).(sources := [])
    && (WellFormed(p.sources + f.sources) ==> r == MergeEntries(p, f))
    && var swap := Higher(AuthorityOfEntry(f), AuthorityOfEntry(p));
       ListsMerged(if swap then f.sources + p.sources else p.sources + f.sources, r.sources)
  }

  /** What becomes of the entry stored for a model when `e` is added. */
  ghost predicate IsJoined(current: Option<CollectedEntry>, e: CollectedEntry, r: CollectedEntry) {
    if current.Some? then IsMerged(current.value, e, r) else r == e
  }

  /** `after` is `before` with the item's report added or merged in, whatever its sources. */
  ghost predicate IsAdded(before: Definitions, vendorID: string, item: CollectedEntry, valid: ModelVersion -> bool,
            after: Definitions) {
    var e := Report(vendorID, item, valid);
    if e.None? then after == before else
      var k := IdentityOf(e.value.definition).value;
      exists sources :: IsNormalized(item.sources, sources) && k in after && after == before[k := after[k]]
                        && IsJoined(At(before, k), e.value.(sources := sources), after[k])
  }

  lemma PlainIsJoined(current: Option<CollectedEntry>, e: CollectedEntry, r: CollectedEntry)
    requires IsJoined(current, e, r) && Plain(e.sources) && (current.Some? ==> Plain(current.value.sources))
    ensures r == Join(current, e)
  {
    hide Plain, WellFormed, MergeEntries, ListsMerged;
    if current.Some? { MergeEntriesIsPlain(current.value, e); }
  }

  /** With plain sources there is one such outcome. */
  lemma PlainIsAdded(before: Definitions, vendorID: string, item: CollectedEntry, valid: ModelVersion -> bool,
            after: Definitions)
    requires PlainDefinitions(before) && Plain(item.sources) && IsAdded(before, vendorID, item, valid, after)
    ensures after == AddItem(before, vendorID, item, valid)
  {
    PlainIsWellFormed(item.sources);
    hide Plain, WellFormed, Canonical, Candidate, IdentityOf, NormalizeBadges, NormalizePricing, ListsMerged, IsJoined,
      Join, Merged;
    CanonicalIsPlain(item.sources);
    var e := Report(vendorID, item, valid);
    if e.Some? {
      var k := IdentityOf(e.value.definition).value;
      var sources :| IsNormalized(item.sources, sources) && k in after && after == before[k := after[k]]
                     && IsJoined(At(before, k), e.value.(sources := sources), after[k]);
      assert e.value.(sources := sources) == e.value;
      PlainIsJoined(At(before, k), e.value, after[k]);
    }
  }

  /** Adding the items one after the other can lead from `before` to `after`. */
  ghost predicate AreAdded(before: Definitions, vendorID: string, items: seq<CollectedEntry>,
            valid: ModelVersion -> bool, after: Definitions)
    decreases |items|
  {
    if items == [] then after == before
    else
      var init, last := items[..|items| - 1], items[|items| - 1];
      exists mid :: AreAdded(before, vendorID, init, valid, mid) && IsAdded(mid, vendorID, last, valid, after)
  }

  lemma AddedSnoc(before: Definitions, vendorID: string, items: seq<CollectedEntry>, i: nat,
            valid: ModelVersion -> bool, mid: Definitions, after: Definitions)
    requires i < |items| && AreAdded(before, vendorID, items[..i], valid, mid)
            && IsAdded(mid, vendorID, items[i], valid, after)
    ensures AreAdded(before, vendorID, items[..i + 1], valid, after)
  {
    hide IsAdded;
    assert items[..i + 1][..i] == items[..i];
  }

  lemma NoneAdded(before: Definitions, vendorID: string, valid: ModelVersion -> bool)
    ensures AreAdded(before, vendorID, [], valid, before)
  {
  }

  /** Adding the groups in the order of their vendors can lead from `before` to `after`. */
  ghost predicate MergedInOrder(before: Definitions, grouped: Groups, order: seq<string>, valid: ModelVersion -> bool,
            after: Definitions)
    requires forall v | v in order :: v in grouped
    decreases |order|
  {
    if order == [] then after == before
    else
      var init, last := order[..|order| - 1], order[|order| - 1];
      assert last in order;
      var items := grouped[last];
      exists mid :: MergedInOrder(before, grouped, init, valid, mid) && AreAdded(mid, last, items, valid, after)
  }

  lemma OneMoreGroup(before: Definitions, grouped: Groups, order: seq<string>, v: string, valid: ModelVersion -> bool,
            mid: Definitions, after: Definitions)
    requires (forall w | w in order :: w in grouped) && v in grouped
    requires MergedInOrder(before, grouped, order, valid, mid) && AreAdded(mid, v, grouped[v], valid, after)
    ensures (forall w | w in order + [v] :: w in grouped) && MergedInOrder(before, grouped, order + [v], valid, after)
  {
    hide AreAdded;
    assert (order + [v])[..|order|] == order;
  }

  /** Every vendor once. */
  ghost predicate IsOrderOf(grouped: Groups, order: seq<string>) {
    Distinct(order) && forall v :: v in order <==> v in grouped
  }

  // ---- The snapshot -----------------------------------------------------------------------------

  method MergeStored(current: CollectedEntry, collected: CollectedEntry) returns (r: CollectedEntry)
    ensures IsMerged(current, collected, r)
  {
    hide WellFormed, Merged, MergeEntries, Higher, AuthorityOfEntry;
    r := MergeCollectedEntries(current, collected);
  }

  class CollectedDefinitionsSnapshot {
    const managedVendorIDs: set<string>
    var collectedVendorIDs: set<string>
    var definitions: Definitions

    constructor (managed: set<string>)
      ensures managedVendorIDs == managed && collectedVendorIDs == {} && definitions == map[]
    {
      managedVendorIDs := managed;
      collectedVendorIDs := {};
      definitions := map[];
    }

    method AddCollected(vendorID: string, item: CollectedEntry, valid: ModelVersion -> bool)
      modifies this`definitions
      ensures IsAdded(old(definitions), vendorID, item, valid, definitions)
      ensures PlainDefinitions(old(definitions)) && Plain(item.sources)
              ==> definitions == AddItem(old(definitions), vendorID, item, valid)
    {
      ghost var before := definitions;
      AddReport(vendorID, item, valid);
      hide *;
      if PlainDefinitions(before) && Plain(item.sources) { PlainIsAdded(before, vendorID, item, valid, definitions); }
    }

    method AddReport(vendorID: string, item: CollectedEntry, valid: ModelVersion -> bool)
      modifies this`definitions
      ensures IsAdded(old(definitions), vendorID, item, valid, definitions)
    {
      hide Plain, WellFormed, MergeEntries, Canonical, Candidate, IdentityOf, NormalizeBadges, NormalizePricing, Merged,
        IsMerged;
      var candidate := VendorSupportDefinitionCandidate(vendorID, item.definition, valid);
      if candidate.None? {
        IdentityOfNone();
        return;
      }
      var identity := IdentityOf(candidate);
      if identity.None? { return; }
      var badges := NormalizeDefinitionSourceBadges(item.badges);
      var sources := NormalizeCollectedSources(item.sources);
      var collected := CollectedEntry(candidate, badges, NormalizePricing(item.pricing), sources);
      assert IsNormalized(item.sources, sources);
      ghost var reported := collected;
      hide IsNormalized;
      if identity.value in definitions {
        collected := MergeStored(definitions[identity.value], collected);
      }
      definitions := definitions[identity.value := collected];
      assert IsJoined(At(old(definitions), identity.value), reported, definitions[identity.value]);
    }

    method MergeGroup(vendorID: string, items: seq<CollectedEntry>, valid: ModelVersion -> bool)
      modifies this`definitions
      ensures AreAdded(old(definitions), vendorID, items, valid, definitions)
      ensures PlainDefinitions(old(definitions)) && PlainItems(items)
              ==> definitions == AddItems(old(definitions), vendorID, items, valid)
    {
      hide PlainDefinitions, Plain, AddItem, IsAdded, AreAdded;
      NoneAdded(definitions, vendorID, valid);
      assert items[..0] == [];
      for i := 0 to |items|
        invariant AreAdded(old(definitions), vendorID, items[..i], valid, definitions)
        invariant PlainDefinitions(old(definitions)) && PlainItems(items)
                ==> definitions == AddItems(old(definitions), vendorID, items[..i], valid)
      {
        assert items[..i + 1][..i] == items[..i];
        if PlainDefinitions(old(definitions)) && PlainItems(items) {
          PlainPart(items, i);
          AddItemsIsPlain(old(definitions), vendorID, items[..i], valid);
        }
        ghost var mid := definitions;
        AddCollected(vendorID, items[i], valid);
        AddedSnoc(old(definitions), vendorID, items, i, valid, mid, definitions);
      }
      assert items[..|items|] == items;
    }

    method MergeVendor(vendorID: string, grouped: Groups, valid: ModelVersion -> bool, ghost before: Definitions,
              ghost done: set<string>)
      requires vendorID in grouped && vendorID !in done && Progress(before, definitions, grouped, done, valid)
      modifies this`collectedVendorIDs, this`definitions
      ensures AreAdded(old(definitions), vendorID, grouped[vendorID], valid, definitions)
      ensures Progress(before, definitions, grouped, done + {vendorID}, valid)
      ensures collectedVendorIDs == old(collectedVendorIDs) + if grouped[vendorID] != [] then {vendorID} else {}
    {
      MergeStep(before, definitions, grouped, done, vendorID, valid);
      NoneAdded(definitions, vendorID, valid);
      hide *;
      if grouped[vendorID] == [] { return; }
      collectedVendorIDs := collectedVendorIDs + {vendorID};
      MergeGroup(vendorID, grouped[vendorID], valid);
    }

    /** Merges the reports into the snapshot, vendor by vendor in any order. The vendors it marks as
        collected are those with reports, whether or not any report was usable. With plain sources and
        trimmed vendors the order does not show. */
    method Merge(grouped: Groups, valid: ModelVersion -> bool) returns (ghost order: seq<string>)
      modifies this`collectedVendorIDs, this`definitions
      ensures collectedVendorIDs == old(collectedVendorIDs) + Reporting(grouped)
      ensures IsOrderOf(grouped, order) && MergedInOrder(old(definitions), grouped, order, valid, definitions)
      ensures Mergeable(old(definitions), grouped)
              ==> IsMerge(old(definitions), grouped, valid, definitions) && PlainDefinitions(definitions)
    {
      hide *;
      ghost var before, collected, done := definitions, collectedVendorIDs, {};
      order := [];
      var rest := grouped.Keys;
      StartMerge(before, collected, grouped, valid);
      StartOrder(before, grouped, valid);
      while rest != {}
        invariant rest == Unvisited(grouped, done)
        invariant collectedVendorIDs == WithReported(collected, grouped, done)
        invariant Progress(before, definitions, grouped, done, valid)
        invariant Visited(before, grouped, done, order, valid, definitions)
        decreases |rest|
      {
        var vendorID :| vendorID in rest;
        VisitStep(collected, grouped, done, vendorID);
        ghost var mid := definitions;
        MergeVendor(vendorID, grouped, valid, before, done);
        OrderStep(before, grouped, done, order, vendorID, valid, mid, definitions);
        done := done + {vendorID};
        order := order + [vendorID];
        rest := rest - {vendorID};
      }
      EndMerge(before, definitions, collected, grouped, done, valid);
      EndOrder(before, grouped, done, order, valid, definitions);
    }
  }

  /** The vendors in `done` have been visited in this order. */
  ghost predicate Visited(before: Definitions, grouped: Groups, done: set<string>, order: seq<string>,
            valid: ModelVersion -> bool, now: Definitions) {
    && done <= grouped.Keys && Distinct(order) && (forall v :: v in order <==> v in done)
    && MergedInOrder(before, grouped, order, valid, now)
  }

  lemma StartOrder(before: Definitions, grouped: Groups, valid: ModelVersion -> bool)
    ensures Visited(before, grouped, {}, [], valid, before)
  {
  }

  lemma OrderStep(before: Definitions, grouped: Groups, done: set<string>, order: seq<string>, v: string,
            valid: ModelVersion -> bool, mid: Definitions, after: Definitions)
    requires Visited(before, grouped, done, order, valid, mid) && v in grouped && v !in done
    requires AreAdded(mid, v, grouped[v], valid, after)
    ensures Visited(before, grouped, done + {v}, order + [v], valid, after)
  {
    hide AreAdded, MergedInOrder;
    OneMoreGroup(before, grouped, order, v, valid, mid, after);
  }

  lemma EndOrder(before: Definitions, grouped: Groups, done: set<string>, order: seq<string>,
            valid: ModelVersion -> bool, now: Definitions)
    requires Visited(before, grouped, done, order, valid, now) && Unvisited(grouped, done) == {}
    ensures IsOrderOf(grouped, order) && MergedInOrder(before, grouped, order, valid, now)
  {
    hide MergedInOrder;
    forall v | v in grouped ensures v in done { assert v !in Unvisited(grouped, done); }
  }

  ghost predicate Mergeable(before: Definitions, grouped: Groups) {
    PlainDefinitions(before) && PlainGroups(grouped) && TrimmedVendors(grouped)
  }

  ghost predicate Progress(before: Definitions, sofar: Definitions, grouped: Groups, done: set<string>,
            valid: ModelVersion -> bool) {
    Mergeable(before, grouped) ==> PlainDefinitions(sofar) && PartlyMerged(before, sofar, grouped, done, valid)
  }

  ghost function Unvisited(grouped: Groups, done: set<string>): set<string> {
    grouped.Keys - done
  }

  ghost function WithReported(collected: set<string>, grouped: Groups, done: set<string>): set<string> {
    collected + set v | v in grouped && v in done && grouped[v] != []
  }

  lemma StartMerge(before: Definitions, collected: set<string>, grouped: Groups, valid: ModelVersion -> bool)
    ensures WithReported(collected, grouped, {}) == collected && Unvisited(grouped, {}) == grouped.Keys
    ensures Progress(before, before, grouped, {}, valid)
  {
    hide MergedAt, PlainDefinitions, PlainGroups;
  }

  lemma VisitStep(collected: set<string>, grouped: Groups, done: set<string>, v: string)
    requires v in Unvisited(grouped, done)
    ensures v in grouped && v !in done
    ensures Unvisited(grouped, done + {v}) == Unvisited(grouped, done) - {v}
    ensures WithReported(collected, grouped, done + {v})
            == WithReported(collected, grouped, done) + if grouped[v] != [] then {v} else {}
  {
  }

  lemma MergeStep(before: Definitions, sofar: Definitions, grouped: Groups, done: set<string>, v: string,
            valid: ModelVersion -> bool)
    requires Progress(before, sofar, grouped, done, valid) && v in grouped && v !in done
    ensures PlainDefinitions(sofar) && PlainItems(grouped[v])
            ==> Progress(before, AddItems(sofar, v, grouped[v], valid), grouped, done + {v}, valid)
    ensures Mergeable(before, grouped) ==> PlainDefinitions(sofar) && PlainItems(grouped[v])
    ensures !Mergeable(before, grouped) ==> forall after :: Progress(before, after, grouped, done + {v}, valid)
    ensures grouped[v] == [] ==> AddItems(sofar, v, grouped[v], valid) == sofar
  {
    hide TrimSpace, PlainDefinitions, PlainItems, PartlyMerged;
    if Mergeable(before, grouped) {
      AddItemsIsPlain(sofar, v, grouped[v], valid);
      GroupMerged(before, sofar, grouped, done, v, valid);
    }
  }

  lemma EndMerge(before: Definitions, after: Definitions, collected: set<string>, grouped: Groups, done: set<string>,
            valid: ModelVersion -> bool)
    requires Progress(before, after, grouped, done, valid) && Unvisited(grouped, done) == {}
    ensures WithReported(collected, grouped, done) == collected + Reporting(grouped)
    ensures Mergeable(before, grouped) ==> IsMerge(before, grouped, valid, after) && PlainDefinitions(after)
  {
    hide AddItems, PlainDefinitions, PlainGroups, TrimSpace;
    forall v | v in grouped ensures v in done { assert v !in Unvisited(grouped, done); }
  }

  lemma IdentityOfNone()
    ensures IdentityOf(None) == None
  {
  }

  lemma PlainPart(items: seq<CollectedEntry>, i: nat)
    requires PlainItems(items) && i < |items|
    ensures PlainItems(items[..i]) && Plain(items[i].sources)
  {
    hide Plain;
    forall e | e in items[..i] ensures e in items {}
    assert items[i] in items;
  }
}
