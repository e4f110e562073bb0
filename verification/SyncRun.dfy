/** A whole sync run (sync/reconciler.go): collect, then apply. What it may delete. */
module SyncRun {
  import opened Text
  import opened EntryMerge
  import opened CollectedSources
  import opened AuthorityFold
  import opened Identities
  import opened Snapshot
  import opened Collect
  import opened GlobalSnapshot
  import opened RegistryEntries
  import opened Registry
  import opened RegistryRuns
  import opened Reconcile
  import opened StoredEntries
  import opened NamedSources

  ghost function PlanOf(definitions: Definitions, managed: set<string>, collected: set<string>): Plan {
    Plan(map k | k in definitions :: EntryFor(definitions[k]), managed, collected)
  }

  lemma PlanIsWellKeyed(definitions: Definitions, managed: set<string>, collected: set<string>,
            valid: ModelVersion -> bool)
    requires Healthy(definitions, valid)
    ensures WellKeyed(PlanOf(definitions, managed, collected))
    ensures forall k | k in definitions :: definitions[k].definition.Some? && valid(definitions[k].definition.value)
    ensures forall k | k in definitions :: WellFormed(definitions[k].sources)
  {
    hide IdentityOf, TrimSpace, Prepared, NormalizeBadges, NormalizePricing, RegistrySourcesOf, Canonical, WellFormed;
    forall k | k in definitions ensures WellFormed(definitions[k].sources) {
      PlainIsWellFormed(definitions[k].sources);
    }
    hide Plain;
  }

  method EntriesOf(definitions: Definitions) returns (entries: map<SurfaceIdentity, RegistryEntry>)
    ensures (forall k | k in definitions :: WellFormed(definitions[k].sources))
            ==> entries == map k | k in definitions :: EntryFor(definitions[k])
    ensures entries.Keys == definitions.Keys
    ensures forall k | k in entries :: entries[k].definition == definitions[k].definition
  {
    hide WellFormed, EntryFor;
    entries := map[];
    var rest := definitions.Keys;
    while rest != {}
      invariant rest <= definitions.Keys && entries.Keys == definitions.Keys - rest
      invariant forall k | k in entries :: WellFormed(definitions[k].sources) ==> entries[k] == EntryFor(definitions[k])
      invariant forall k | k in entries :: entries[k].definition == definitions[k].definition
      decreases |rest|
    {
      var k :| k in rest;
      var entry := NewModelRegistryEntry(definitions[k]);
      entries := entries[k := entry];
      rest := rest - {k};
    }
  }

  /** The snapshot a run works on: nothing without managed vendors. */
  ghost function SnapshotOf(managed: set<string>, runs: seq<SourceResult>, valid: ModelVersion -> bool): Definitions {
    if managed == {} then map[] else Global(runs, valid)
  }

  ghost function PlanFor(managed: set<string>, runs: seq<SourceResult>, valid: ModelVersion -> bool): Plan {
    PlanOf(SnapshotOf(managed, runs, valid), managed, Vendors(SnapshotOf(managed, runs, valid)))
  }

  lemma CollectedPlan(managed: set<string>, runs: seq<SourceResult>, valid: ModelVersion -> bool,
            definitions: Definitions, collected: set<string>)
    requires Standard(runs, valid)
    requires managed == {} ==> definitions == map[] && collected == {}
    requires managed != {} ==> FannedIn(SortResults(runs), valid, definitions, collected)
    ensures definitions == SnapshotOf(managed, runs, valid) && collected == Vendors(definitions)
            && Healthy(definitions, valid)
  {
    hide Healthy, OverlayAll, SortResults, Standard;
    HealthyNone(valid);
  }

  lemma SnapshotFacts(managed: set<string>, runs: seq<SourceResult>, valid: ModelVersion -> bool)
    requires Standard(runs, valid)
    ensures Healthy(SnapshotOf(managed, runs, valid), valid)
  {
    HealthyNone(valid);
    SortMembers(runs);
    SortedKeepsStandard(runs, SortResults(runs), valid);
    SnapshotIsHealthy(SortResults(runs), valid);
    hide Healthy, OverlayAll, SortResults, Standard;
  }

  /** What was collected from named sources can be stored. */
  lemma NamedIsInsertable(e: CollectedEntry)
    requires WellFormed(e.sources) && AllName(e.sources)
    ensures Insertable(EntryFor(e))
  {
    CanonicalNames(e.sources);
    NotNameless(Canonical(e.sources));
    var normal := NormalizeObservations(EntryFor(e).sources);
    hide WellFormed, AllName, Canonical, Nameless, Triple, EntryFor, NormalizeObservations, Observed;
    forall k ensures Observed(normal, k) <==> Triple(e, k) { IsTriple(e, k); }
    TriplesNamedIff(e);
    ObservedNamedIff(normal, e);
  }

  lemma NotNameless(sources: seq<CollectedSource>)
    requires AllName(sources)
    ensures forall s | s in sources :: !Nameless(s)
  {
    hide Blank;
  }

  /** If no collector reports a definition without a model id, no upsert of the run can fail. */
  lemma NamedReportsAreApplicable(managed: set<string>, runs: seq<SourceResult>, valid: ModelVersion -> bool)
    requires Standard(runs, valid) && NamedReports(runs)
    ensures Applicable(PlanFor(managed, runs, valid))
  {
    var m := SnapshotOf(managed, runs, valid);
    SnapshotFacts(managed, runs, valid);
    PlanIsWellKeyed(m, managed, Vendors(m), valid);
    GlobalNames(runs, valid);
    NothingNamed();
    assert NamedDefinitions(m);
    hide Healthy, Standard, SnapshotOf, WellFormed, WellKeyed, EntryFor, Insertable, AllName, NamedReports;
    forall k | k in m ensures Insertable(EntryFor(m[k])) { NamedIsInsertable(m[k]); }
  }

  /** A registry reconciled with the plan holds the merged snapshot, entry by entry, and of the rest what was
      there of managed vendors nobody reported on. */
  lemma SnapshotIsStored(s: Tables, t: Tables, managed: set<string>, runs: seq<SourceResult>,
            valid: ModelVersion -> bool)
    requires Standard(runs, valid) && Reconciled(s, PlanFor(managed, runs, valid), t)
    ensures var m := SnapshotOf(managed, runs, valid); StoresAll(t, m) && KeepsOnly(s, t, m, managed)
  {
    var m := SnapshotOf(managed, runs, valid);
    hide *;
    SnapshotFacts(managed, runs, valid);
    HealthyIsPrepared(m, valid);
    PlanForPlansAll(managed, runs, valid);
    ReconciledStores(s, t, PlanFor(managed, runs, valid), m, managed);
  }

  lemma HealthyIsPrepared(m: Definitions, valid: ModelVersion -> bool)
    requires Healthy(m, valid)
    ensures forall k | k in m :: Prepared(m[k]) && WellFormed(m[k].sources)
  {
    hide Prepared, WellFormed, Plain, IdentityOf, TrimSpace;
    forall k | k in m ensures WellFormed(m[k].sources) { PlainIsWellFormed(m[k].sources); }
  }

  lemma PlanForPlansAll(managed: set<string>, runs: seq<SourceResult>, valid: ModelVersion -> bool)
    ensures PlansAll(PlanFor(managed, runs, valid), SnapshotOf(managed, runs, valid), managed)
  {
    hide SnapshotOf, EntryFor;
  }

  /** Collects and applies. The outcome is that of the plan made from the merged snapshot: every entry of it is
      stored, and nothing else is left but the models of managed vendors nobody reported on. A failing
      upsert leaves the rest of the plan undone, but nothing outside it done. None fails if every
      definition that comes with a source names a model. */
  method SyncNow(store: PostgresModelRegistry, managed: set<string>, runs: seq<SourceResult>,
            valid: ModelVersion -> bool)
    returns (ok: bool)
    requires Consistent(store.State()) && Standard(runs, valid)
    modifies store
    ensures Consistent(store.State()) && Between(old(store.State()), PlanFor(managed, runs, valid), store.State())
    ensures ok ==> Reconciled(old(store.State()), PlanFor(managed, runs, valid), store.State())
    ensures ok ==> && StoresAll(store.State(), SnapshotOf(managed, runs, valid))
                   && KeepsOnly(old(store.State()), store.State(), SnapshotOf(managed, runs, valid), managed)
    ensures Applicable(PlanFor(managed, runs, valid)) ==> ok
    ensures NamedReports(runs) ==> ok
  {
    if NamedReports(runs) { NamedReportsAreApplicable(managed, runs, valid); }
    hide Applicable, Healthy, Standard, FannedIn, Consistent, Between, Reconciled, WellKeyed, EntryFor, Vendors,
      WellFormed, Global, SortResults, NamedReports, StoresAll, KeepsOnly;
    var snapshot := CollectAuthoritativeDefinitions(managed, runs, valid);
    CollectedPlan(managed, runs, valid, snapshot.definitions, snapshot.collectedVendorIDs);
    PlanIsWellKeyed(snapshot.definitions, managed, snapshot.collectedVendorIDs, valid);
    var entries := EntriesOf(snapshot.definitions);
    ghost var before := store.State();
    ok := Sync(store, Plan(entries, managed, snapshot.collectedVendorIDs));
    if ok { SnapshotIsStored(before, store.State(), managed, runs, valid); }
  }

  /** A run, completed or not, removes a model of a managed vendor only if its snapshot holds a
      validated definition of that vendor. */
  lemma StaleDeleteSafety(s: Tables, t: Tables, managed: set<string>, runs: seq<SourceResult>,
            valid: ModelVersion -> bool, id: SurfaceIdentity)
    requires Standard(runs, valid) && Between(s, PlanFor(managed, runs, valid), t)
    requires id in s.entries && id !in t.entries && id.vendorID in managed
    ensures var m := SnapshotOf(managed, runs, valid);
            exists k :: k in m && k.vendorID == id.vendorID && m[k].definition.Some? && valid(m[k].definition.value)
  {
    var m := SnapshotOf(managed, runs, valid);
    SnapshotFacts(managed, runs, valid);
    PlanIsWellKeyed(m, managed, Vendors(m), valid);
    hide Healthy, Standard, SnapshotOf, WellFormed, WellKeyed, Same, EntryFor;
    if id in m {
    } else {
      assert Stale(PlanFor(managed, runs, valid), id);
      assert id.vendorID in Vendors(m);
    }
  }

  /** A run in which no collector yields anything empties exactly the unmanaged vendors. */
  lemma EmptyRunKeepsManagedVendors(s: Tables, t: Tables, managed: set<string>, runs: seq<SourceResult>,
            valid: ModelVersion -> bool)
    requires forall r | r in runs :: r.failed || Local(r, valid) == map[]
    requires Reconciled(s, PlanFor(managed, runs, valid), t)
    ensures forall id :: id in t.entries <==> id in s.entries && id.vendorID in managed
  {
    SortMembers(runs);
    NothingCollected(SortResults(runs), valid);
    hide OverlayAll, SortResults, Local, EntryFor, Holds;
    assert SnapshotOf(managed, runs, valid) == map[];
    hide SnapshotOf;
  }

  /** The outcome of a run does not depend on the order in which the collectors finish. */
  lemma PlanIsOrderFree(managed: set<string>, a: seq<SourceResult>, b: seq<SourceResult>, valid: ModelVersion -> bool)
    requires multiset(a) == multiset(b) && DistinctSources(a) && DistinctSources(b)
    ensures PlanFor(managed, a, valid) == PlanFor(managed, b, valid)
  {
    hide Global, DistinctSources, SortResults;
    CompletionOrderIsInvisible(a, b, valid);
  }

  /** Without managed vendors nothing is collected, whatever the collectors report, and applying that
      empties the registry. */
  lemma NoManagedVendorsEmptyTheRegistry(s: Tables, t: Tables, runs: seq<SourceResult>, valid: ModelVersion -> bool)
    requires Reconciled(s, PlanFor({}, runs, valid), t)
    ensures t.entries == map[]
  {
    assert SnapshotOf({}, runs, valid) == map[];
    hide Same, Holds, SnapshotOf, EntryFor;
    assert PlanFor({}, runs, valid).entries == map[];
    assert t.entries.Keys == {};
  }
}
