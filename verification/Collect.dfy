/** Fan-in of the collectors (sync/collect.go): private snapshots are regrouped by vendor, sorted
    by authority and merged into one. The outcome does not depend on which collector finishes
    first, nor on the order in which any map is visited. */
module Collect {
  import opened Text
  import opened Ordering
  import opened EntryMerge
  import opened CollectedSources
  import opened SourceAuthority
  import opened AuthorityFold
  import opened Identities
  import opened Snapshot

  // ---- Complete entries -------------------------------------------------------------------------

  /** An entry as collecting leaves it; collecting it again changes nothing. */
  ghost predicate Complete(e: CollectedEntry, valid: ModelVersion -> bool) {
    && Defaulted(e) && Prepared(e) && Plain(e.sources)
    && var d := e.definition.value;
       TrimSpace(d.vendorID) != "" && TrimSpace(d.modelID) == d.modelID != "" && valid(d)
  }

  ghost predicate Healthy(m: Definitions, valid: ModelVersion -> bool) {
    forall k | k in m :: Complete(m[k], valid) && IdentityOf(m[k].definition) == Some(k)
  }

  /** Filling the gaps of a valid definition from a valid one for the same model keeps it valid. */
  ghost predicate MergingKeepsValid(valid: ModelVersion -> bool) {
    forall p, f | valid(p) && valid(f) && IdentityOf(Some(p)) == IdentityOf(Some(f)) :: valid(MergeMetadata(p, f))
  }

  lemma CandidateIsComplete(vendorID: string, source: Option<ModelVersion>, valid: ModelVersion -> bool)
    ensures var c := Candidate(vendorID, source, valid);
            c.Some? ==> && TrimSpace(c.value.modelID) == c.value.modelID != "" && valid(c.value)
                        && !Blank(c.value.displayName)
                        && c.value.primaryShape != 0 && c.value.supportedShapes != [] && c.value.inputModalities != []
                        && c.value.outputModalities != []
  {
    if source.Some? { TrimTwice(source.value.modelID); }
    hide TrimSpace;
  }

  lemma ReportIsComplete(vendorID: string, item: CollectedEntry, valid: ModelVersion -> bool)
    requires Plain(item.sources)
    ensures var e := Report(vendorID, item, valid); e.Some? ==> Complete(e.value, valid)
  {
    CandidateIsComplete(vendorID, item.definition, valid);
    NormalizeBadgesTwice(item.badges);
    NormalizedIsNormal(item.pricing);
    NormalIsFixed(NormalizePricing(item.pricing));
    PlainIsWellFormed(item.sources);
    CanonicalIsIdempotent(item.sources);
    CanonicalIsPlain(item.sources);
    hide Candidate, TrimSpace, NormalizeBadges, NormalizePricing, Canonical, Plain, Blank;
  }

  lemma CandidateIsFixed(v: string, d: ModelVersion, valid: ModelVersion -> bool)
    requires TrimSpace(v) == v == TrimSpace(d.vendorID) && v != "" && TrimSpace(d.modelID) == d.modelID != ""
            && valid(d)
    requires !Blank(d.displayName) && d.primaryShape != 0 && d.supportedShapes != []
    requires d.inputModalities != [] && d.outputModalities != []
    ensures Candidate(v, Some(d), valid) == Some(d)
  {
    hide TrimSpace, Blank;
  }

  lemma ReportIsFixed(v: string, e: CollectedEntry, valid: ModelVersion -> bool)
    requires Complete(e, valid) && TrimSpace(v) == v == TrimSpace(e.definition.value.vendorID)
    ensures Report(v, e, valid) == Some(e)
  {
    CandidateIsFixed(v, e.definition.value, valid);
    hide Candidate, TrimSpace, NormalizeBadges, NormalizePricing, Canonical, Plain, Blank;
  }

  lemma PairIsPrepared(p: CollectedEntry, f: CollectedEntry)
    requires Plain(p.sources) && Plain(f.sources)
    ensures Prepared(MergePair(p, f)) && Plain(MergePair(p, f).sources)
  {
    NormalizeBadgesTwice(p.badges + f.badges);
    MergedIsNormal(p.pricing, f.pricing);
    NormalIsFixed(MergePricing(p.pricing, f.pricing));
    PlainConcat(p.sources, f.sources);
    CanonicalIsIdempotent(p.sources + f.sources);
    CanonicalIsPlain(p.sources + f.sources);
    hide NormalizeBadges, NormalizePricing, Canonical, Plain, MergePricing, MergeDefinitions, WellFormed, IsNormal;
  }

  lemma ValidPair(p: CollectedEntry, f: CollectedEntry, valid: ModelVersion -> bool)
    requires p.definition.Some? && f.definition.Some? && valid(p.definition.value) && valid(f.definition.value)
    requires IdentityOf(p.definition) == IdentityOf(f.definition) && MergingKeepsValid(valid)
    ensures MergePair(p, f).definition == Some(MergeMetadata(p.definition.value, f.definition.value))
    ensures valid(MergeMetadata(p.definition.value, f.definition.value))
  {
    hide IdentityOf, MergeMetadata, MergeBadges, MergePricing, Canonical;
    assert Some(p.definition.value) == p.definition && Some(f.definition.value) == f.definition;
  }

  lemma PairIsComplete(p: CollectedEntry, f: CollectedEntry, valid: ModelVersion -> bool)
    requires Complete(p, valid) && Complete(f, valid) && MergingKeepsValid(valid)
    requires IdentityOf(p.definition) == IdentityOf(f.definition)
    ensures Complete(MergePair(p, f), valid)
    ensures IdentityOf(MergePair(p, f).definition) == IdentityOf(p.definition)
  {
    hide MergePair, TrimSpace, MergeMetadata, Plain, Prepared, Blank, MergingKeepsValid;
    PairIsPrepared(p, f);
    MetadataKeepsDefaults(p.definition.value, f.definition.value);
    ValidPair(p, f, valid);
  }

  lemma MetadataKeepsDefaults(p: ModelVersion, f: ModelVersion)
    ensures var m := MergeMetadata(p, f);
            && m.vendorID == p.vendorID && m.modelID == p.modelID
            && (!Blank(p.displayName) ==> m.displayName == p.displayName)
            && (p.primaryShape != 0 ==> m.primaryShape == p.primaryShape)
            && (p.supportedShapes != [] ==> m.supportedShapes == p.supportedShapes)
            && (p.inputModalities != [] ==> m.inputModalities == p.inputModalities)
            && (p.outputModalities != [] ==> m.outputModalities == p.outputModalities)
  {
    hide MergeAliases, MergeContext, Blank;
  }

  lemma MergeIsComplete(p: CollectedEntry, f: CollectedEntry, k: SurfaceIdentity, valid: ModelVersion -> bool)
    requires Complete(p, valid) && Complete(f, valid) && MergingKeepsValid(valid)
    requires IdentityOf(p.definition) == Some(k) == IdentityOf(f.definition)
    ensures Complete(MergeEntries(p, f), valid) && IdentityOf(MergeEntries(p, f).definition) == Some(k)
  {
    PairIsComplete(p, f, valid);
    PairIsComplete(f, p, valid);
    hide Complete, IdentityOf, MergePair, Higher, AuthorityOfEntry, MergingKeepsValid;
  }

  lemma JoinIsComplete(m: Definitions, e: CollectedEntry, k: SurfaceIdentity, valid: ModelVersion -> bool)
    requires Healthy(m, valid) && Complete(e, valid) && IdentityOf(e.definition) == Some(k) && MergingKeepsValid(valid)
    ensures Complete(Join(At(m, k), e), valid) && IdentityOf(Join(At(m, k), e).definition) == Some(k)
  {
    hide Complete, IdentityOf, MergeEntries, MergingKeepsValid;
    if k in m { MergeIsComplete(m[k], e, k, valid); }
  }

  lemma HealthyUpdate(m: Definitions, k: SurfaceIdentity, e: CollectedEntry, valid: ModelVersion -> bool)
    requires Healthy(m, valid) && Complete(e, valid) && IdentityOf(e.definition) == Some(k)
    ensures Healthy(m[k := e], valid)
  {
    hide Complete, IdentityOf;
  }

  lemma AddItemIsHealthy(m: Definitions, vendorID: string, item: CollectedEntry, valid: ModelVersion -> bool)
    requires Healthy(m, valid) && Plain(item.sources) && MergingKeepsValid(valid)
    ensures Healthy(AddItem(m, vendorID, item, valid), valid)
  {
    ReportIsComplete(vendorID, item, valid);
    ReportIdentity(vendorID, item, valid);
    hide Complete, Healthy, IdentityOf, Plain, Join, Report, TrimSpace, MergingKeepsValid;
    var e := Report(vendorID, item, valid);
    if e.Some? {
      var k := IdentityOf(e.value.definition).value;
      JoinIsComplete(m, e.value, k, valid);
      HealthyUpdate(m, k, Join(At(m, k), e.value), valid);
    }
  }

  lemma {:induction false} AddItemsIsHealthy(m: Definitions, vendorID: string, items: seq<CollectedEntry>,
            valid: ModelVersion -> bool)
    requires Healthy(m, valid) && PlainItems(items) && MergingKeepsValid(valid)
    ensures Healthy(AddItems(m, vendorID, items, valid), valid)
    decreases |items|
  {
    hide Healthy, Plain, AddItem, MergingKeepsValid;
    if items != [] {
      var init, last := items[..|items| - 1], items[|items| - 1];
      assert forall e :: e in items <==> e in init || e == last;
      AddItemsIsHealthy(m, vendorID, init, valid);
      AddItemIsHealthy(AddItems(m, vendorID, init, valid), vendorID, last, valid);
    }
  }

  // ---- A collector's private snapshot -----------------------------------------------------------

  /** The reports of some vendors, merged in an arbitrary order. */
  ghost function MergedGroups(before: Definitions, grouped: Groups, done: set<string>,
            valid: ModelVersion -> bool): Definitions
    requires done <= grouped.Keys
    decreases |done|
  {
    if done == {} then before else
      var v :| v in done;
      AddItems(MergedGroups(before, grouped, done - {v}, valid), v, grouped[v], valid)
  }

  lemma {:induction false} MergedGroupsIsMerge(grouped: Groups, done: set<string>, valid: ModelVersion -> bool)
    requires done <= grouped.Keys && TrimmedVendors(grouped) && PlainGroups(grouped) && MergingKeepsValid(valid)
    ensures PartlyMerged(map[], MergedGroups(map[], grouped, done, valid), grouped, done, valid)
    ensures Healthy(MergedGroups(map[], grouped, done, valid), valid)
    decreases |done|
  {
    hide AddItems, TrimSpace, PartlyMerged, PlainItems, MergingKeepsValid;
    if done == {} {
      NoneMerged(grouped, valid);
    } else {
      var all := MergedGroups(map[], grouped, done, valid);
      var v :| v in done && all == AddItems(MergedGroups(map[], grouped, done - {v}, valid), v, grouped[v], valid);
      var init := MergedGroups(map[], grouped, done - {v}, valid);
      MergedGroupsIsMerge(grouped, done - {v}, valid);
      GroupMerged(map[], init, grouped, done - {v}, v, valid);
      AddItemsIsHealthy(init, v, grouped[v], valid);
      assert done - {v} + {v} == done;
    }
  }

  lemma NoneMerged(grouped: Groups, valid: ModelVersion -> bool)
    ensures PartlyMerged(map[], map[], grouped, {}, valid)
  {
    hide MergedAt;
  }

  /** One collector: its identity, its authority and its reports by vendor. */
  datatype SourceResult = SourceResult(sourceID: string, authorityPriority: int, failed: bool, grouped: Groups)

  ghost predicate Usable(run: SourceResult) {
    TrimmedVendors(run.grouped) && PlainGroups(run.grouped)
  }

  /** What the collector's private snapshot holds. */
  ghost function Local(run: SourceResult, valid: ModelVersion -> bool): Definitions {
    MergedGroups(map[], run.grouped, run.grouped.Keys, valid)
  }

  lemma LocalIsMerge(run: SourceResult, valid: ModelVersion -> bool)
    requires Usable(run) && MergingKeepsValid(valid)
    ensures IsMerge(map[], run.grouped, valid, Local(run, valid)) && Healthy(Local(run, valid), valid)
  {
    hide Healthy, AddItems, MergingKeepsValid, TrimmedVendors, PlainGroups, MergedGroups;
    MergedGroupsIsMerge(run.grouped, run.grouped.Keys, valid);
    hide MergedAt;
  }

  // ---- Regrouping -------------------------------------------------------------------------------

  function EntryKey(e: CollectedEntry): SurfaceIdentity {
    match IdentityOf(e.definition)
    case None => SurfaceIdentity("", "")
    case Some(k) => k
  }

  /** The items are entries of the snapshot, each listed once. */
  ghost predicate ListsPartOf(m: Definitions, items: seq<CollectedEntry>) {
    && (forall i | 0 <= i < |items| :: EntryKey(items[i]) in m && m[EntryKey(items[i])] == items[i])
    && (forall i, j | 0 <= i < j < |items| :: EntryKey(items[i]) != EntryKey(items[j]))
  }

  ghost predicate HasItem(items: seq<CollectedEntry>, k: SurfaceIdentity) {
    exists i | 0 <= i < |items| :: EntryKey(items[i]) == k
  }

  /** The groups list every entry of the snapshot once, under its vendor, in some order. */
  ghost predicate IsExtract(m: Definitions, grouped: Groups) {
    && (forall v | v in grouped :: grouped[v] != [] && ListsPartOf(m, grouped[v]))
    && (forall v, k | v in grouped && HasItem(grouped[v], k) :: k.vendorID == v)
    && (forall k | k in m :: k.vendorID in grouped && HasItem(grouped[k.vendorID], k))
  }

  lemma HasItemSnoc(items: seq<CollectedEntry>, e: CollectedEntry, k: SurfaceIdentity)
    ensures HasItem(items + [e], k) <==> HasItem(items, k) || EntryKey(e) == k
  {
    hide EntryKey;
    var all := items + [e];
    assert all[|items|] == e;
    if HasItem(items, k) { var i :| 0 <= i < |items| && EntryKey(items[i]) == k; assert all[i] == items[i]; }
    if HasItem(all, k) { var i :| 0 <= i < |all| && EntryKey(all[i]) == k; assert i < |items| ==> all[i] == items[i]; }
  }

  function GroupOf(grouped: Groups, v: string): seq<CollectedEntry> {
    if v in grouped then grouped[v] else []
  }

  lemma NothingListed(m: Definitions)
    ensures ListsPartOf(m, []) && forall k :: !HasItem([], k)
  {
  }

  /** The vendor under which an entry is regrouped; none without a definition or a vendor id. */
  function GroupKey(e: CollectedEntry): string {
    if e.definition.None? then "" else TrimSpace(e.definition.value.vendorID)
  }

  /** The items are the entries under some keys, in their order. */
  ghost predicate Picks(m: Definitions, keys: seq<SurfaceIdentity>, items: seq<CollectedEntry>) {
    |items| == |keys| && forall i | 0 <= i < |keys| :: keys[i] in m && items[i] == m[keys[i]]
  }

  ghost predicate KeysOfVendor(m: Definitions, v: string, keys: seq<SurfaceIdentity>) {
    Distinct(keys) && forall k :: k in keys <==> k in m && GroupKey(m[k]) == v
  }

  /** The items are the entries of the vendor, each once, in some order. */
  ghost predicate ListsVendor(m: Definitions, v: string, items: seq<CollectedEntry>) {
    exists keys: seq<SurfaceIdentity> :: KeysOfVendor(m, v, keys) && Picks(m, keys, items)
  }

  /** The groups are the entries that name a vendor, under its trimmed id. */
  ghost predicate IsRegrouping(m: Definitions, grouped: Groups) {
    && "" !in grouped
    && (forall v | v != "" :: ListsVendor(m, v, GroupOf(grouped, v)))
    && (forall v | v in grouped :: grouped[v] != [])
  }

  lemma NoneRegrouped()
    ensures IsRegrouping(map[], map[])
  {
    hide GroupKey;
    forall v | v != "" ensures ListsVendor(map[], v, GroupOf(map[], v)) {
      var none: seq<SurfaceIdentity> := [];
      assert KeysOfVendor(map[], v, none) && Picks(map[], none, []);
    }
  }

  lemma ListsVendorGrows(m: Definitions, v: string, items: seq<CollectedEntry>, k: SurfaceIdentity, e: CollectedEntry)
    requires ListsVendor(m, v, items) && k !in m
    ensures ListsVendor(m[k := e], v, if GroupKey(e) == v then items + [e] else items)
  {
    hide GroupKey;
    var keys :| KeysOfVendor(m, v, keys) && Picks(m, keys, items);
    if GroupKey(e) == v {
      assert KeysOfVendor(m[k := e], v, keys + [k]);
      assert Picks(m[k := e], keys + [k], items + [e]);
    } else {
      assert KeysOfVendor(m[k := e], v, keys) && Picks(m[k := e], keys, items);
    }
  }

  lemma RegroupStep(m: Definitions, grouped: Groups, k: SurfaceIdentity, e: CollectedEntry)
    requires IsRegrouping(m, grouped) && k !in m
    ensures var v := GroupKey(e);
            IsRegrouping(m[k := e], if v == "" then grouped else grouped[v := GroupOf(grouped, v) + [e]])
  {
    hide GroupKey, ListsVendor;
    var own := GroupKey(e);
    var after := if own == "" then grouped else grouped[own := GroupOf(grouped, own) + [e]];
    forall v | v != "" ensures ListsVendor(m[k := e], v, GroupOf(after, v)) {
      ListsVendorGrows(m, v, GroupOf(grouped, v), k, e);
    }
  }

  /** Regroups a snapshot by vendor; the map is visited in any order. */
  method ExtractGroupedDefinitions(m: Definitions, ghost valid: ModelVersion -> bool) returns (grouped: Groups)
    ensures IsRegrouping(m, grouped)
    ensures Healthy(m, valid) ==> IsExtract(m, grouped)
  {
    NoneRegrouped();
    grouped := map[];
    ghost var part: Definitions := map[];
    var rest := m.Keys;
    hide Complete, TrimSpace, Healthy, IsExtract, IsRegrouping;
    while rest != {}
      invariant rest <= m.Keys && part.Keys == m.Keys - rest
      invariant forall k | k in part :: part[k] == m[k]
      invariant IsRegrouping(part, grouped)
      decreases |rest|
    {
      var k :| k in rest;
      rest := rest - {k};
      var def := m[k];
      RegroupStep(part, grouped, k, def);
      part := part[k := def];
      if def.definition.None? { continue; }
      var vendorID := TrimSpace(def.definition.value.vendorID);
      if vendorID == "" { continue; }
      grouped := grouped[vendorID := GroupOf(grouped, vendorID) + [def]];
    }
    assert part == m;
    if Healthy(m, valid) { RegroupingIsExtract(m, grouped, valid); }
  }

  /** Every group lists the entries of its vendor. */
  ghost predicate GroupsList(m: Definitions, grouped: Groups) {
    forall v | v != "" :: ListsAll(m, v, GroupOf(grouped, v))
  }

  ghost predicate ListsAll(m: Definitions, v: string, items: seq<CollectedEntry>) {
    ListsPartOf(m, items) && forall k :: HasItem(items, k) <==> k in m && k.vendorID == v
  }

  lemma GroupsListIsExtract(m: Definitions, grouped: Groups)
    requires GroupsList(m, grouped) && "" !in grouped && forall v | v in grouped :: grouped[v] != []
    requires forall k | k in m :: k.vendorID != ""
    ensures IsExtract(m, grouped)
  {
    NothingListed(m);
    hide ListsPartOf, HasItem;
    forall v | v in grouped ensures ListsAll(m, v, grouped[v]) {
      assert v != "" && GroupOf(grouped, v) == grouped[v];
    }
    forall k | k in m ensures k.vendorID in grouped {
      assert HasItem(GroupOf(grouped, k.vendorID), k);
    }
  }

  /** Of a healthy snapshot nothing is left out, and the vendor of an entry is the one of its key. */
  lemma RegroupingIsExtract(m: Definitions, grouped: Groups, valid: ModelVersion -> bool)
    requires Healthy(m, valid) && IsRegrouping(m, grouped)
    ensures IsExtract(m, grouped)
  {
    forall k | k in m ensures EntryKey(m[k]) == k && GroupKey(m[k]) == k.vendorID != "" { HealthyEntry(m, k, valid); }
    hide Healthy, GroupKey, EntryKey, ListsVendor, ListsPartOf, HasItem, IsExtract;
    forall v | v != "" ensures ListsAll(m, v, GroupOf(grouped, v)) {
      VendorPart(m, v, GroupOf(grouped, v));
    }
    hide GroupOf;
    GroupsListIsExtract(m, grouped);
  }

  lemma VendorPart(m: Definitions, v: string, items: seq<CollectedEntry>)
    requires forall k | k in m :: EntryKey(m[k]) == k && GroupKey(m[k]) == k.vendorID
    requires ListsVendor(m, v, items)
    ensures ListsAll(m, v, items)
  {
    hide EntryKey, GroupKey;
    var keys :| KeysOfVendor(m, v, keys) && Picks(m, keys, items);
    forall i | 0 <= i < |items| ensures EntryKey(items[i]) == keys[i] {}
    forall k ensures HasItem(items, k) <==> k in keys {
      if k in keys {
        var i :| 0 <= i < |keys| && keys[i] == k;
        assert EntryKey(items[i]) == k;
      }
    }
  }

  lemma HealthyEntry(m: Definitions, k: SurfaceIdentity, valid: ModelVersion -> bool)
    requires Healthy(m, valid) && k in m
    ensures var e := m[k];
            EntryKey(e) == k && e.definition.Some? && TrimSpace(e.definition.value.vendorID) == k.vendorID != ""
    ensures TrimSpace(k.vendorID) == k.vendorID
  {
    TrimTwice(m[k].definition.value.vendorID);
    hide TrimSpace, Prepared, Plain;
  }

  // ---- Merging a collector's groups -------------------------------------------------------------

  /** `m` merged entry by entry on top of `before`. */
  ghost function Overlay(before: Definitions, m: Definitions): Definitions {
    map k | k in before.Keys + m.Keys :: if k in m then Join(At(before, k), m[k]) else before[k]
  }

  /** Adding a group's entries joins each with what is there, whatever their order. */
  lemma {:induction false} ListedItemsAt(before: Definitions, v: string, items: seq<CollectedEntry>, m: Definitions,
            k: SurfaceIdentity, valid: ModelVersion -> bool)
    requires Healthy(m, valid) && ListsPartOf(m, items)
    requires forall l | HasItem(items, l) :: l.vendorID == v
    ensures HasItem(items, k) ==> k in m
    ensures At(AddItems(before, v, items, valid), k)
            == if HasItem(items, k) then Some(Join(At(before, k), m[k])) else At(before, k)
    decreases |items|
  {
    hide Healthy, EntryKey, HasItem, AddItem, Join;
    if items == [] {
      NothingListed(m);
    } else {
      var init, e := items[..|items| - 1], items[|items| - 1];
      assert items == init + [e];
      forall l ensures HasItem(items, l) <==> HasItem(init, l) || EntryKey(e) == l { HasItemSnoc(init, e, l); }
      ListedItemsAt(before, v, init, m, k, valid);
      ListedOnce(m, items);
      AddListedItem(AddItems(before, v, init, valid), v, m, EntryKey(e), valid, k);
    }
  }

  lemma ListedOnce(m: Definitions, items: seq<CollectedEntry>)
    requires ListsPartOf(m, items) && items != []
    ensures !HasItem(items[..|items| - 1], EntryKey(items[|items| - 1]))
  {
    hide EntryKey;
    var init := items[..|items| - 1];
    forall i | 0 <= i < |init| ensures EntryKey(init[i]) != EntryKey(items[|items| - 1]) { assert init[i] == items[i]; }
  }

  lemma KeyIsIdentity(e: CollectedEntry, k: SurfaceIdentity)
    requires EntryKey(e) == k && k.vendorID != ""
    ensures IdentityOf(e.definition) == Some(k)
  {
    hide IdentityOf;
  }

  lemma AddListedItem(before: Definitions, v: string, m: Definitions, l: SurfaceIdentity,
            valid: ModelVersion -> bool, k: SurfaceIdentity)
    requires Healthy(m, valid) && l in m && l.vendorID == v
    ensures At(AddItem(before, v, m[l], valid), k) == if k == l then Some(Join(At(before, k), m[k])) else At(before, k)
  {
    hide TrimSpace, Report, Join, Complete, IdentityOf;
    HealthyEntry(m, l, valid);
    assert Complete(m[l], valid);
    hide Healthy;
    ReportIsFixed(v, m[l], valid);
    KeyIsIdentity(m[l], l);
  }

  /** Passing a snapshot through its groups merges exactly its entries. */
  lemma MergeOfExtract(before: Definitions, m: Definitions, grouped: Groups, after: Definitions,
            valid: ModelVersion -> bool)
    requires Healthy(m, valid) && IsExtract(m, grouped) && IsMerge(before, grouped, valid, after)
    ensures after == Overlay(before, m)
    ensures forall v :: v in grouped <==> v in Vendors(m)
  {
    hide Healthy, AddItems, Join, HasItem, ListsPartOf;
    forall k ensures At(after, k) == At(Overlay(before, m), k) {
      if k.vendorID in grouped {
        ListedItemsAt(before, k.vendorID, grouped[k.vendorID], m, k, valid);
      }
    }
    forall v | v in grouped ensures v in Vendors(m) {
      var k := FirstListed(m, grouped[v]);
      assert k.vendorID == v;
    }
    SameEverywhere(after, Overlay(before, m));
  }

  lemma SameEverywhere(a: Definitions, b: Definitions)
    requires forall k :: At(a, k) == At(b, k)
    ensures a == b
  {
    forall k ensures k in a <==> k in b { assert At(a, k) == At(b, k); }
    forall k | k in a ensures a[k] == b[k] { assert At(a, k) == At(b, k); }
  }

  lemma FirstListed(m: Definitions, items: seq<CollectedEntry>) returns (k: SurfaceIdentity)
    requires ListsPartOf(m, items) && items != []
    ensures k in m && HasItem(items, k)
  {
    hide EntryKey;
    k := EntryKey(items[0]);
  }

  ghost function Vendors(m: Definitions): set<string> {
    set k | k in m :: k.vendorID
  }

  lemma ExtractIsMergeable(before: Definitions, m: Definitions, grouped: Groups, valid: ModelVersion -> bool)
    requires PlainDefinitions(before) && Healthy(m, valid) && IsExtract(m, grouped)
    ensures Mergeable(before, grouped)
  {
    hide Plain, EntryKey, PlainDefinitions, TrimSpace, Prepared;
    forall v | v in grouped ensures TrimSpace(v) == v && PlainItems(grouped[v]) {
      var k := FirstListed(m, grouped[v]);
      HealthyEntry(m, k, valid);
      forall e | e in grouped[v] ensures Plain(e.sources) {
        var i :| 0 <= i < |grouped[v]| && grouped[v][i] == e;
        assert m[EntryKey(e)] == e;
      }
    }
  }

  method CollectDefinitionSourceIsolated(run: SourceResult, managed: set<string>, valid: ModelVersion -> bool)
    returns (result: SourceResult)
    ensures result == run.(grouped := result.grouped)
    ensures Usable(run) && MergingKeepsValid(valid) ==> IsExtract(Local(run, valid), result.grouped)
  {
    hide Healthy, Local, IsExtract, PlainDefinitions, PlainGroups, TrimmedVendors, MergingKeepsValid, IsMerge;
    var localSnapshot := new CollectedDefinitionsSnapshot(managed);
    NoDefinitions();
    var _ := localSnapshot.Merge(run.grouped, valid);
    if Usable(run) && MergingKeepsValid(valid) {
      LocalIsMerge(run, valid);
      MergeIsDeterministic(map[], run.grouped, valid, localSnapshot.definitions, Local(run, valid));
    }
    var grouped := ExtractGroupedDefinitions(localSnapshot.definitions, valid);
    result := run.(grouped := grouped);
  }

  lemma NoDefinitions()
    ensures PlainDefinitions(map[])
  {
  }

  // ---- Fan-in -----------------------------------------------------------------------------------

  /** Higher authority first, then by source id. */
  predicate Before(a: SourceResult, b: SourceResult) {
    if a.authorityPriority != b.authorityPriority then a.authorityPriority > b.authorityPriority
    else Less(a.sourceID, b.sourceID)
  }

  function InsertResult(r: SourceResult, s: seq<SourceResult>): (out: seq<SourceResult>)
    ensures |out| == |s| + 1
  {
    if s == [] then [r]
    else if Before(r, s[0]) then [r] + s
    else [s[0]] + InsertResult(r, s[1..])
  }

  function SortResults(s: seq<SourceResult>): (out: seq<SourceResult>)
    ensures |out| == |s|
  {
    if s == [] then [] else InsertResult(s[|s| - 1], SortResults(s[..|s| - 1]))
  }

  lemma {:induction false} InsertMembers(r: SourceResult, s: seq<SourceResult>)
    ensures forall x :: x in InsertResult(r, s) <==> x == r || x in s
  {
    hide Before;
    if s != [] { InsertMembers(r, s[1..]); }
  }

  /** No result before one of higher authority. */
  ghost predicate ByAuthority(s: seq<SourceResult>) {
    forall i, j | 0 <= i < j < |s| :: !Before(s[j], s[i])
  }

  lemma BeforeIsOrder()
    ensures StrictOrder(Before)
  {
    StringsAreOrdered();
    hide Less;
    forall a, b, c | Before(a, b) && Before(b, c) ensures Before(a, c) {}
  }

  lemma {:induction false} InsertPermutes(r: SourceResult, s: seq<SourceResult>)
    ensures multiset(InsertResult(r, s)) == multiset(s) + multiset{r}
    decreases |s|
  {
    hide Before;
    if s != [] {
      assert s == [s[0]] + s[1..];
      if !Before(r, s[0]) { InsertPermutes(r, s[1..]); }
    }
  }

  lemma FirstByAuthority(x: SourceResult, rest: seq<SourceResult>)
    requires ByAuthority(rest) && forall y | y in rest :: !Before(y, x)
    ensures ByAuthority([x] + rest)
  {
    hide Before;
  }

  lemma RestByAuthority(s: seq<SourceResult>)
    requires ByAuthority(s) && s != []
    ensures ByAuthority(s[1..]) && forall y | y in s[1..] :: !Before(y, s[0])
  {
    hide Before;
    forall y | y in s[1..] ensures !Before(y, s[0]) {
      var i :| 0 <= i < |s[1..]| && s[1..][i] == y;
      assert s[i + 1] == y;
    }
  }

  lemma {:induction false} InsertSorts(r: SourceResult, s: seq<SourceResult>)
    requires ByAuthority(s)
    ensures ByAuthority(InsertResult(r, s))
    decreases |s|
  {
    BeforeIsOrder();
    hide Before, ByAuthority;
    if s == [] {
      NoneSorted();
      FirstByAuthority(r, []);
      assert [r] + [] == [r];
    } else {
      RestByAuthority(s);
      assert s == [s[0]] + s[1..];
      if Before(r, s[0]) {
        assert forall y | y in s :: y == s[0] || y in s[1..];
        FirstByAuthority(r, s);
      } else {
        InsertSorts(r, s[1..]);
        InsertMembers(r, s[1..]);
        FirstByAuthority(s[0], InsertResult(r, s[1..]));
      }
    }
  }

  lemma {:induction false} SortSorts(s: seq<SourceResult>)
    ensures ByAuthority(SortResults(s)) && multiset(SortResults(s)) == multiset(s)
    decreases |s|
  {
    hide InsertResult, ByAuthority;
    if s == [] {
      NoneSorted();
    } else {
      var init, last := s[..|s| - 1], s[|s| - 1];
      assert s == init + [last];
      SortSorts(init);
      InsertSorts(last, SortResults(init));
      InsertPermutes(last, SortResults(init));
    }
  }

  /** The higher authority comes first, and of one authority the smaller source id. */
  lemma ResultsInOrder(s: seq<SourceResult>, i: nat, j: nat)
    requires i < j < |s|
    ensures var a, b := SortResults(s)[i], SortResults(s)[j];
            || a.authorityPriority > b.authorityPriority
            || (a.authorityPriority == b.authorityPriority
                && (a.sourceID == b.sourceID || Less(a.sourceID, b.sourceID)))
  {
    SortSorts(s);
    hide Less, SortResults;
    var a, b := SortResults(s)[i], SortResults(s)[j];
    if a.sourceID != b.sourceID { LessConnected(a.sourceID, b.sourceID); }
  }

  lemma NoneSorted()
    ensures ByAuthority([])
  {
  }

  /** Sorts the results in place, highest authority first, ties by source id. */
  method SortByAuthority(s: seq<SourceResult>) returns (out: seq<SourceResult>)
    ensures out == SortResults(s)
    ensures ByAuthority(out) && multiset(out) == multiset(s)
  {
    hide Less, ByAuthority;
    out := [];
    for i := 0 to |s|
      invariant out == SortResults(s[..i])
    {
      assert s[..i + 1][..i] == s[..i];
      out := InsertResult(s[i], out);
    }
    assert s[..|s|] == s;
    SortSorts(s);
  }

  /** The collectors' private snapshots merged in the given order, failed collectors skipped. */
  ghost function OverlayAll(runs: seq<SourceResult>, valid: ModelVersion -> bool): Definitions {
    if runs == [] then map[] else
      var before, last := OverlayAll(runs[..|runs| - 1], valid), runs[|runs| - 1];
      if last.failed then before else Overlay(before, Local(last, valid))
  }

  ghost function Global(runs: seq<SourceResult>, valid: ModelVersion -> bool): Definitions {
    OverlayAll(SortResults(runs), valid)
  }

  ghost predicate AllUsable(runs: seq<SourceResult>) {
    forall r | r in runs :: Usable(r)
  }

  /** The results are what the collectors of `runs` return. */
  ghost predicate ResultsOf(runs: seq<SourceResult>, results: seq<SourceResult>, valid: ModelVersion -> bool) {
    && |results| == |runs|
    && forall i | 0 <= i < |runs| :: (results[i] == runs[i].(grouped := results[i].grouped)
                                      && IsExtract(Local(runs[i], valid), results[i].grouped))
  }

  lemma {:induction false} InsertMatches(x: SourceResult, y: SourceResult, runs: seq<SourceResult>,
            results: seq<SourceResult>, valid: ModelVersion -> bool)
    requires y == x.(grouped := y.grouped) && IsExtract(Local(x, valid), y.grouped)
    requires ResultsOf(runs, results, valid)
    ensures ResultsOf(InsertResult(x, runs), InsertResult(y, results), valid)
    decreases |runs|
  {
    hide IsExtract, Local, Less;
    if runs != [] {
      assert Before(x, runs[0]) == Before(y, results[0]);
      InsertMatches(x, y, runs[1..], results[1..], valid);
    }
  }

  lemma {:induction false} SortMatches(runs: seq<SourceResult>, results: seq<SourceResult>,
            valid: ModelVersion -> bool)
    requires ResultsOf(runs, results, valid)
    ensures ResultsOf(SortResults(runs), SortResults(results), valid)
    decreases |runs|
  {
    hide IsExtract, Local, Before;
    if runs != [] {
      var n := |runs| - 1;
      SortMatches(runs[..n], results[..n], valid);
      InsertMatches(runs[n], results[n], SortResults(runs[..n]), SortResults(results[..n]), valid);
    }
  }

  lemma {:induction false} SortMembers(s: seq<SourceResult>)
    ensures forall x :: x in SortResults(s) <==> x in s
    decreases |s|
  {
    if s != [] {
      SortMembers(s[..|s| - 1]);
      InsertMembers(s[|s| - 1], SortResults(s[..|s| - 1]));
    }
  }

  lemma OverlayIsHealthy(before: Definitions, m: Definitions, valid: ModelVersion -> bool)
    requires Healthy(before, valid) && Healthy(m, valid) && MergingKeepsValid(valid)
    ensures Healthy(Overlay(before, m), valid)
    ensures Vendors(Overlay(before, m)) == Vendors(before) + Vendors(m)
  {
    hide Complete, IdentityOf, Join, MergingKeepsValid;
    forall k | k in m ensures Complete(Overlay(before, m)[k], valid)
      && IdentityOf(Overlay(before, m)[k].definition) == Some(k) {
      JoinIsComplete(before, m[k], k, valid);
    }
  }

  lemma HealthyIsPlain(m: Definitions, valid: ModelVersion -> bool)
    requires Healthy(m, valid)
    ensures PlainDefinitions(m)
  {
    hide Plain, Prepared, Defaulted, IdentityOf;
  }

  lemma HealthyNone(valid: ModelVersion -> bool)
    ensures Healthy(map[], valid) && Vendors(map[]) == {}
  {
  }

  ghost predicate Standard(runs: seq<SourceResult>, valid: ModelVersion -> bool) {
    AllUsable(runs) && MergingKeepsValid(valid)
  }

  /** Everything the snapshot holds after merging some sorted results. */
  ghost predicate FannedIn(runs: seq<SourceResult>, valid: ModelVersion -> bool, definitions: Definitions,
            collected: set<string>) {
    definitions == OverlayAll(runs, valid) && Healthy(definitions, valid) && collected == Vendors(definitions)
  }

  lemma FanInStep(runs: seq<SourceResult>, results: seq<SourceResult>, i: nat, valid: ModelVersion -> bool,
                  definitions: Definitions, collected: set<string>)
    requires Standard(runs, valid) && ResultsOf(runs, results, valid) && i < |runs|
    requires FannedIn(runs[..i], valid, definitions, collected)
    ensures Mergeable(definitions, results[i].grouped)
    ensures results[i].failed ==> FannedIn(runs[..i + 1], valid, definitions, collected)
    ensures !results[i].failed ==> forall after | IsMerge(definitions, results[i].grouped, valid, after) ::
              FannedIn(runs[..i + 1], valid, after, collected + Reporting(results[i].grouped))
  {
    hide Healthy, IsExtract, IsMerge, Overlay, Local, MergingKeepsValid, Usable, Vendors, Mergeable;
    assert runs[..i + 1][..i] == runs[..i];
    var m, grouped := Local(runs[i], valid), results[i].grouped;
    assert runs[i] in runs;
    LocalIsMerge(runs[i], valid);
    HealthyIsPlain(definitions, valid);
    ExtractIsMergeable(definitions, m, grouped, valid);
    forall after | IsMerge(definitions, grouped, valid, after)
      ensures !runs[i].failed ==> FannedIn(runs[..i + 1], valid, after, collected + Reporting(grouped))
    {
      MergeOfExtract(definitions, m, grouped, after, valid);
      OverlayIsHealthy(definitions, m, valid);
      ExtractHasNoEmpty(m, grouped);
      assert Vendors(m) == Reporting(grouped);
    }
  }

  lemma ExtractHasNoEmpty(m: Definitions, grouped: Groups)
    requires IsExtract(m, grouped)
    ensures forall v | v in grouped :: grouped[v] != []
  {
  }

  /** Collects from all sources. `runs` lists the collectors in the order in which they finish. */
  method CollectAuthoritativeDefinitions(managed: set<string>, runs: seq<SourceResult>, valid: ModelVersion -> bool)
    returns (snapshot: CollectedDefinitionsSnapshot)
    ensures fresh(snapshot) && snapshot.managedVendorIDs == managed
    ensures managed == {} ==> snapshot.definitions == map[] && snapshot.collectedVendorIDs == {}
    ensures managed != {} && Standard(runs, valid)
            ==> FannedIn(SortResults(runs), valid, snapshot.definitions, snapshot.collectedVendorIDs)
  {
    hide *;
    snapshot := new CollectedDefinitionsSnapshot(managed);
    if managed == {} { return; }
    var collected: seq<SourceResult> := [];
    for i := 0 to |runs|
      invariant snapshot.definitions == map[] && snapshot.collectedVendorIDs == {}
      invariant |collected| == i
      invariant forall j | 0 <= j < i :: collected[j] == runs[j].(grouped := collected[j].grouped)
      invariant Standard(runs, valid)
              ==> forall j | 0 <= j < i :: IsExtract(Local(runs[j], valid), collected[j].grouped)
    {
      var result := CollectDefinitionSourceIsolated(runs[i], managed, valid);
      StandardRun(runs, i, valid);
      collected := collected + [result];
    }
    var results := SortByAuthority(collected);
    StartFanIn(runs, collected, valid);
    ghost var sorted := SortResults(runs);
    for i := 0 to |results|
      invariant Standard(runs, valid)
              ==> FannedIn(sorted[..i], valid, snapshot.definitions, snapshot.collectedVendorIDs)
    {
      if Standard(runs, valid) {
        FanInStep(sorted, results, i, valid, snapshot.definitions, snapshot.collectedVendorIDs);
      }
      if results[i].failed { continue; }
      var _ := snapshot.Merge(results[i].grouped, valid);
    }
    assert sorted[..|sorted|] == sorted;
  }

  lemma StandardRun(runs: seq<SourceResult>, i: nat, valid: ModelVersion -> bool)
    requires i < |runs|
    ensures Standard(runs, valid) ==> Usable(runs[i]) && MergingKeepsValid(valid)
  {
    hide Usable, MergingKeepsValid;
    assert runs[i] in runs;
  }

  lemma StartFanIn(runs: seq<SourceResult>, collected: seq<SourceResult>, valid: ModelVersion -> bool)
    requires |collected| == |runs|
    requires forall j | 0 <= j < |runs| :: collected[j] == runs[j].(grouped := collected[j].grouped)
    ensures Standard(runs, valid)
            && (forall j | 0 <= j < |runs| :: IsExtract(Local(runs[j], valid), collected[j].grouped))
            ==> ResultsOf(SortResults(runs), SortResults(collected), valid) && Standard(SortResults(runs), valid)
    ensures FannedIn(SortResults(runs)[..0], valid, map[], {})
  {
    hide IsExtract, Local, Before, Usable, Healthy, MergingKeepsValid, SortResults;
    HealthyNone(valid);
    SortMembers(runs);
    if Standard(runs, valid) && forall j | 0 <= j < |runs| :: IsExtract(Local(runs[j], valid), collected[j].grouped) {
      SortMatches(runs, collected, valid);
    }
  }
}
