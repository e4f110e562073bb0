/** Sources whose definition, if they carry one, names a model: what collectors report that way stays
    that way through normalising, merging and fan-in (sync/collect.go, source_model.go). */
module NamedSources {
  import opened Text
  import opened Slugs
  import opened EntryMerge
  import opened CollectedSources
  import opened SourceAuthority
  import opened AuthorityFold
  import opened Identities
  import opened Snapshot
  import opened Collect
  import opened RegistryEntries
  import opened Registry
  import opened RegistryRuns

  predicate Names(s: CollectedSource) {
    s.definition.None? || !Blank(s.definition.value.modelID)
  }

  ghost predicate AllName(sources: seq<CollectedSource>) {
    forall s | s in sources :: Names(s)
  }

  lemma NormalizedNames(s: CollectedSource)
    ensures Normalize(s).Some? ==> Normalize(s).value.definition == s.definition
  {
    hide VendorSlug, TrimSpace, NormalizeBadges, NormalizePricing;
  }

  lemma MergedPairNames(p: CollectedSource, f: CollectedSource)
    requires Names(p) && Names(f)
    ensures Names(MergeNormalized(p, f))
  {
    NormalizedNames(p);
    NormalizedNames(f);
    hide Normalize, MergeBadges, MergePricing, Blank, MergeAliases, MergeContext;
  }

  lemma AddSourceNames(m: map<Key, CollectedSource>, s: CollectedSource)
    requires Names(s) && forall k | k in m :: Names(m[k])
    ensures forall k | k in AddSource(m, s) :: Names(AddSource(m, s)[k])
  {
    KeyNeedsNormal(s);
    hide Normalize, IdentityKey, MergeNormalized;
    if IdentityKey(s).Some? {
      var k, n := IdentityKey(s).value, Normalize(s).value;
      NormalizedNames(s);
      if k in m { MergedPairNames(m[k], n); }
    }
  }

  lemma {:induction false} MergedNames(sources: seq<CollectedSource>)
    requires AllName(sources)
    ensures forall k | k in Merged(sources) :: Names(Merged(sources)[k])
    decreases |sources|
  {
    hide AddSource, Names;
    if sources != [] {
      var init, last := sources[..|sources| - 1], sources[|sources| - 1];
      assert forall s :: s in sources <==> s in init || s == last;
      MergedNames(init);
      AddSourceNames(Merged(init), last);
    }
  }

  lemma CanonicalNames(sources: seq<CollectedSource>)
    requires AllName(sources)
    ensures AllName(Canonical(sources))
  {
    MergedNames(sources);
    RankKeysKnown(Merged(sources));
    hide Merged, SortedRanks, Names;
  }

  lemma MergeEntriesNames(p: CollectedEntry, f: CollectedEntry)
    requires AllName(p.sources) && AllName(f.sources)
    ensures AllName(MergeEntries(p, f).sources)
  {
    hide Names, Canonical, MergeDefinitions, MergeBadges, MergePricing, Higher, AuthorityOfEntry;
    CanonicalNames(p.sources + f.sources);
    CanonicalNames(f.sources + p.sources);
  }

  ghost predicate NamedDefinitions(m: Definitions) {
    forall k | k in m :: AllName(m[k].sources)
  }

  ghost predicate NamedItems(items: seq<CollectedEntry>) {
    forall e | e in items :: AllName(e.sources)
  }

  ghost predicate NamedGroups(grouped: Groups) {
    forall v | v in grouped :: NamedItems(grouped[v])
  }

  lemma JoinNames(m: Definitions, k: SurfaceIdentity, e: CollectedEntry)
    requires NamedDefinitions(m) && AllName(e.sources)
    ensures NamedDefinitions(m[k := Join(At(m, k), e)])
  {
    hide AllName, MergeEntries;
    if k in m { MergeEntriesNames(m[k], e); }
  }

  lemma AddItemNames(m: Definitions, v: string, item: CollectedEntry, valid: ModelVersion -> bool)
    requires NamedDefinitions(m) && AllName(item.sources)
    ensures NamedDefinitions(AddItem(m, v, item, valid))
  {
    var e := Report(v, item, valid);
    hide AllName, Candidate, IdentityOf, Join, Canonical, NormalizeBadges, NormalizePricing, NamedDefinitions;
    CanonicalNames(item.sources);
    if e.Some? { JoinNames(m, IdentityOf(e.value.definition).value, e.value); }
  }

  lemma {:induction false} AddItemsNames(m: Definitions, v: string, items: seq<CollectedEntry>,
            valid: ModelVersion -> bool)
    requires NamedDefinitions(m) && NamedItems(items)
    ensures NamedDefinitions(AddItems(m, v, items, valid))
    decreases |items|
  {
    hide NamedDefinitions, AllName, AddItem;
    if items != [] {
      var init, last := items[..|items| - 1], items[|items| - 1];
      assert forall e :: e in items <==> e in init || e == last;
      AddItemsNames(m, v, init, valid);
      AddItemNames(AddItems(m, v, init, valid), v, last, valid);
    }
  }

  lemma {:induction false} MergedGroupsNames(grouped: Groups, done: set<string>, valid: ModelVersion -> bool)
    requires done <= grouped.Keys && NamedGroups(grouped)
    ensures NamedDefinitions(MergedGroups(map[], grouped, done, valid))
    decreases |done|
  {
    hide NamedDefinitions, NamedItems, AddItems;
    if done == {} {
      NothingNamed();
    } else {
      var all := MergedGroups(map[], grouped, done, valid);
      var v :| v in done && all == AddItems(MergedGroups(map[], grouped, done - {v}, valid), v, grouped[v], valid);
      MergedGroupsNames(grouped, done - {v}, valid);
      AddItemsNames(MergedGroups(map[], grouped, done - {v}, valid), v, grouped[v], valid);
    }
  }

  lemma NothingNamed()
    ensures NamedDefinitions(map[])
  {
  }

  lemma OverlayNames(before: Definitions, m: Definitions)
    requires NamedDefinitions(before) && NamedDefinitions(m)
    ensures NamedDefinitions(Overlay(before, m))
  {
    hide AllName, MergeEntries;
    forall k | k in before && k in m ensures AllName(MergeEntries(before[k], m[k]).sources) {
      MergeEntriesNames(before[k], m[k]);
    }
  }

  /** Every collector that did not fail reports only such sources. */
  ghost predicate NamedReports(runs: seq<SourceResult>) {
    forall r, v, e, s | r in runs && !r.failed && v in r.grouped && e in r.grouped[v] && s in e.sources :: Names(s)
  }

  lemma GroupsOf(runs: seq<SourceResult>, r: SourceResult)
    requires NamedReports(runs) && r in runs && !r.failed
    ensures NamedGroups(r.grouped)
  {
    hide Names;
  }

  lemma {:induction false} OverlayAllNames(runs: seq<SourceResult>, valid: ModelVersion -> bool)
    requires forall r | r in runs && !r.failed :: NamedGroups(r.grouped)
    ensures NamedDefinitions(OverlayAll(runs, valid))
    decreases |runs|
  {
    hide NamedDefinitions, NamedGroups, Overlay, Local;
    if runs == [] {
      NothingNamed();
    } else {
      var init, last := runs[..|runs| - 1], runs[|runs| - 1];
      assert forall r :: r in runs <==> r in init || r == last;
      OverlayAllNames(init, valid);
      if !last.failed {
        LocalNames(last, valid);
        OverlayNames(OverlayAll(init, valid), Local(last, valid));
      }
    }
  }

  lemma LocalNames(run: SourceResult, valid: ModelVersion -> bool)
    requires NamedGroups(run.grouped)
    ensures NamedDefinitions(Local(run, valid))
  {
    hide NamedGroups, MergedGroups;
    MergedGroupsNames(run.grouped, run.grouped.Keys, valid);
  }

  /** The merged snapshot has them all named, too. */
  lemma GlobalNames(runs: seq<SourceResult>, valid: ModelVersion -> bool)
    requires NamedReports(runs)
    ensures NamedDefinitions(Global(runs, valid))
  {
    SortMembers(runs);
    hide NamedDefinitions, NamedGroups, OverlayAll, SortResults, NamedReports;
    forall r | r in SortResults(runs) && !r.failed ensures NamedGroups(r.grouped) { GroupsOf(runs, r); }
    OverlayAllNames(SortResults(runs), valid);
  }

  // ---- One report -------------------------------------------------------------------------------

  /** The first definition reported for a key. */
  ghost function DefinitionFor(sources: seq<CollectedSource>, k: Key): Option<ModelVersion> {
    if sources == [] then None else
      var before, last := DefinitionFor(sources[..|sources| - 1], k), sources[|sources| - 1];
      if before.Some? then before else if IdentityKey(last) == Some(k) then last.definition else None
  }

  predicate SameModelID(a: Option<ModelVersion>, b: Option<ModelVersion>) {
    a.Some? == b.Some? && (a.Some? ==> a.value.modelID == b.value.modelID)
  }

  lemma MergedModelID(p: Option<ModelVersion>, f: Option<ModelVersion>)
    ensures SameModelID(MergeDefinitions(p, f), if p.Some? then p else f)
  {
    hide MergeAliases, MergeContext, Blank;
  }

  /** What adding a source does to the definition kept for its key. */
  lemma AddedDefinition(m: map<Key, CollectedSource>, s: CollectedSource)
    requires CollectedSources.Keyed(m) && StableIDs(s) && IdentityKey(s).Some?
    ensures var k, after := IdentityKey(s).value, AddSource(m, s);
            var kept := if k in m then m[k].definition else None;
            k in after && SameModelID(after[k].definition, if kept.Some? then kept else s.definition)
  {
    NormalizedNames(s);
    SourceFacts(s);
    hide Normalize, StableIDs, IdentityKey, MergeNormalized, MergeDefinitions, MergeBadges, MergePricing;
    var k, n := IdentityKey(s).value, Normalize(s).value;
    if k in m {
      MergeNormalizedFacts(m[k], n);
      MergedModelID(m[k].definition, n.definition);
    }
  }

  /** The definition kept for a key is the first one reported for it, as far as the model id goes. */
  ghost predicate KeepsFirst(m: map<Key, CollectedSource>, k: Key, first: Option<ModelVersion>) {
    if k in m then SameModelID(m[k].definition, first) else first == None
  }

  lemma KeepsFirstStep(m: map<Key, CollectedSource>, s: CollectedSource, k: Key, first: Option<ModelVersion>)
    requires CollectedSources.Keyed(m) && StableIDs(s) && KeepsFirst(m, k, first)
    ensures var own := if IdentityKey(s) == Some(k) then s.definition else None;
            KeepsFirst(AddSource(m, s), k, if first.Some? then first else own)
  {
    hide StableIDs, IdentityKey, AddSource, SameModelID, CollectedSources.Keyed;
    AddSourceStep(m, s);
    if IdentityKey(s) == Some(k) {
      AddedDefinition(m, s);
      SameChain(AddSource(m, s)[k].definition, if k in m then m[k].definition else None, first, s.definition);
    }
  }

  /** The definition kept for a key names the model that the first one reported for it names. */
  lemma {:induction false} MergedDefinition(sources: seq<CollectedSource>, k: Key)
    requires forall s | s in sources :: StableIDs(s)
    ensures KeepsFirst(Merged(sources), k, DefinitionFor(sources, k))
    decreases |sources|
  {
    if sources == [] {
      assert KeepsFirst(map[], k, None);
    } else {
      hide StableIDs, IdentityKey, AddSource, KeepsFirst, CollectedSources.Keyed;
      var init, last := sources[..|sources| - 1], sources[|sources| - 1];
      assert forall s :: s in sources <==> s in init || s == last;
      MergedDefinition(init, k);
      MergedIsKeyed(init);
      KeepsFirstStep(Merged(init), last, k, DefinitionFor(init, k));
    }
  }

  lemma SameChain(after: Option<ModelVersion>, kept: Option<ModelVersion>, first: Option<ModelVersion>,
                  last: Option<ModelVersion>)
    requires SameModelID(kept, first) || (kept.None? && first.None?)
    requires SameModelID(after, if kept.Some? then kept else last)
    ensures SameModelID(after, if first.Some? then first else last)
  {
  }

  /** Every source of the report names its model, or the first definition reported for it does. */
  ghost predicate NamesModels(sources: seq<CollectedSource>) {
    forall s | s in sources && IdentityKey(s).Some? && IdentityKey(s).value.sourceModelID == "" ::
      var d := DefinitionFor(sources, IdentityKey(s).value); d.None? || !Blank(d.value.modelID)
  }

  lemma NamelessIff(sources: seq<CollectedSource>, k: Key)
    requires WellFormed(sources) && k in Merged(sources)
    ensures var d := DefinitionFor(sources, k);
            Nameless(Merged(sources)[k]) <==> k.sourceModelID == "" && d.Some? && Blank(d.value.modelID)
  {
    hide StableIDs, Fits, Merged, DefinitionFor, Normalize, Blank;
    MergedIsKeyed(sources);
    MergedDefinition(sources, k);
  }

  lemma NamesModelsIff(sources: seq<CollectedSource>)
    requires WellFormed(sources)
    ensures NamesModels(sources) <==> forall s | s in Canonical(sources) :: !Nameless(s)
  {
    hide WellFormed, Merged, Canonical, DefinitionFor, IdentityKey, Nameless, Blank, CollectedSources.Keyed, KeyOf;
    CanonicalLists(sources);
    forall k | k in Merged(sources) ensures var d := DefinitionFor(sources, k);
            Nameless(Merged(sources)[k]) <==> k.sourceModelID == "" && d.Some? && Blank(d.value.modelID)
    {
      NamelessIff(sources, k);
    }
  }

  /** Storing what was reported for a model succeeds exactly when, for every source that is reported
      without a model id of its own, the first definition reported with it names a model. */
  lemma ReportedUpsertIff(t: Tables, e: CollectedEntry, outbox: bool)
    requires WellFormed(e.sources) && IdentityOf(e.definition).Some?
    ensures Upsert(t, Some(EntryFor(e)), outbox).Some? <==> NamesModels(e.sources)
  {
    hide *;
    CollectedUpsert(t, e, outbox);
    NamesModelsIff(e.sources);
  }
}
