/** What the registry holds once a snapshot has been applied, told by the snapshot's entries alone
    (sync/apply.go, model_registry_entry.go, store/store_write.go). */
module StoredEntries {
  import opened EntryMerge
  import opened CollectedSources
  import opened AuthorityFold
  import opened Identities
  import opened Snapshot
  import opened RegistryEntries
  import opened Registry
  import opened RegistryRuns
  import opened Reconcile

  /** The row has the entry's definition, badges and prices. */
  ghost predicate RowIs(row: Row, e: CollectedEntry) {
    e.definition == Some(row.definition) && row.badges == e.badges && row.pricing == e.pricing
  }

  /** The source is the first of the entry's that is observed under the key. */
  ghost predicate FirstUnder(sources: seq<CollectedSource>, i: int, key: ObservationKey) {
    0 <= i < |sources| && IsUnder(sources[i], key) && forall j | 0 <= j < i :: !IsUnder(sources[j], key)
  }

  /** The model's observations are those of the sources, each key from the first source that has it. */
  ghost predicate ObservationsAre(t: Tables, id: SurfaceIdentity, sources: seq<CollectedSource>) {
    && (forall key :: ObservationRow(id, key) in t.observations
                      <==> exists s :: s in sources && IsUnder(s, key))
    && (forall key, i | ObservationRow(id, key) in t.observations && FirstUnder(sources, i, key) ::
          Records(sources[i], t.observations[ObservationRow(id, key)]))
  }

  /** Every entry of the snapshot is stored, with its definition, badges, prices and sources. */
  ghost predicate StoresAll(t: Tables, m: Definitions) {
    forall id | id in m ::
      id in t.entries && RowIs(t.entries[id], m[id]) && ObservationsAre(t, id, m[id].sources)
  }

  /** Nothing else is stored but what was before of the managed vendors without an entry in the snapshot, and
      that as it was. */
  ghost predicate KeepsOnly(s: Tables, t: Tables, m: Definitions, managed: set<string>) {
    && (forall id :: id in t.entries <==> id in m || Spared(s, m, managed, id))
    && (forall id | id !in m && Spared(s, m, managed, id) :: Untouched(s, t, id))
  }

  ghost predicate Spared(s: Tables, m: Definitions, managed: set<string>, id: SurfaceIdentity) {
    id in s.entries && id.vendorID in managed && forall k | k in m :: k.vendorID != id.vendorID
  }

  ghost predicate Untouched(s: Tables, t: Tables, id: SurfaceIdentity) {
    && id in s.entries && id in t.entries && t.entries[id] == s.entries[id]
    && forall key :: var r := ObservationRow(id, key);
                     (r in t.observations <==> r in s.observations)
                     && (r in t.observations ==> t.observations[r] == s.observations[r])
  }

  // ---- One entry --------------------------------------------------------------------------------

  lemma HeldRows(t: Tables, id: SurfaceIdentity, e: RegistryEntry, key: ObservationKey)
    requires Holds(t, id, e)
    ensures var r, normal := ObservationRow(id, key), NormalizeObservations(e.sources);
            && (r in t.observations <==> Observed(normal, key))
            && (r in t.observations ==> t.observations[r] in normal && KeyOfObservation(t.observations[r]) == key)
  {
    var normal := NormalizeObservations(e.sources);
    ObservationsAreDistinct(e.sources);
    NormalizedAreNamed(e.sources);
    InsertedRows(map[], id, normal);
    hide NormalizeObservations, InsertObservations, Observed, DistinctKeys, NormalizeBadges, NormalizePricing;
    var own := RowsOf(t.observations, id);
    assert ObservationRow(id, key) in own <==> ObservationRow(id, key) in t.observations;
  }

  lemma HeldKey(t: Tables, id: SurfaceIdentity, e: CollectedEntry, key: ObservationKey)
    requires Holds(t, id, EntryFor(e)) && Prepared(e) && WellFormed(e.sources)
    ensures ObservationRow(id, key) in t.observations <==> exists s :: s in e.sources && IsUnder(s, key)
  {
    CleanCanonical(e.sources);
    hide Holds, EntryFor, WellFormed, ObservedAs, IsUnder, NormalizeObservations, Observed, NormalizeBadges,
      NormalizePricing, Normalize;
    forall s | s in e.sources ensures IsUnder(s, key) <==> ObservedAs(s) == key { ObservedUnder(s, key); }
    HeldRows(t, id, EntryFor(e), key);
    ObservationsOfEntry(e, key);
  }

  lemma HeldRecord(t: Tables, id: SurfaceIdentity, e: CollectedEntry, key: ObservationKey, i: int)
    requires Holds(t, id, EntryFor(e)) && Prepared(e) && WellFormed(e.sources)
    requires ObservationRow(id, key) in t.observations && FirstUnder(e.sources, i, key)
    ensures Records(e.sources[i], t.observations[ObservationRow(id, key)])
  {
    CleanCanonical(e.sources);
    hide Holds, EntryFor, WellFormed, Records, ObservedAs, IsUnder, KeyOfObservation, NormalizeObservations,
      NormalizeBadges, NormalizePricing, Normalize;
    forall j | 0 <= j < |e.sources| ensures IsUnder(e.sources[j], key) <==> ObservedAs(e.sources[j]) == key {
      assert e.sources[j] in e.sources;
      ObservedUnder(e.sources[j], key);
    }
    HeldRows(t, id, EntryFor(e), key);
    var first := ObservationRecords(e, t.observations[ObservationRow(id, key)]);
    assert first == i;
  }

  lemma HeldObservations(t: Tables, id: SurfaceIdentity, e: CollectedEntry)
    requires Holds(t, id, EntryFor(e)) && Prepared(e) && WellFormed(e.sources)
    ensures ObservationsAre(t, id, e.sources)
  {
    hide Holds, EntryFor, WellFormed, Records, IsUnder, Prepared, FirstUnder;
    forall key ensures ObservationRow(id, key) in t.observations <==> exists s :: s in e.sources && IsUnder(s, key) {
      HeldKey(t, id, e, key);
    }
    forall key, i | ObservationRow(id, key) in t.observations && FirstUnder(e.sources, i, key)
      ensures 0 <= i < |e.sources| && Records(e.sources[i], t.observations[ObservationRow(id, key)])
    {
      FirstIsIndex(e.sources, i, key);
      HeldRecord(t, id, e, key, i);
    }
  }

  lemma FirstIsIndex(sources: seq<CollectedSource>, i: int, key: ObservationKey)
    requires FirstUnder(sources, i, key)
    ensures 0 <= i < |sources|
  {
  }

  lemma HeldRow(t: Tables, id: SurfaceIdentity, e: CollectedEntry)
    requires Holds(t, id, EntryFor(e)) && Prepared(e)
    ensures id in t.entries && RowIs(t.entries[id], e)
  {
    hide NormalizeBadges, NormalizePricing, Canonical, RegistrySourcesOf, NormalizeObservations, InsertObservations,
      RowsOf;
  }

  /** A plan of a snapshot's entries. */
  ghost predicate PlansAll(plan: Plan, m: Definitions, managed: set<string>) {
    && plan.entries.Keys == m.Keys && (forall id | id in m :: plan.entries[id] == EntryFor(m[id]))
    && plan.managed == managed && forall v :: v in plan.collected <==> exists k :: k in m && k.vendorID == v
  }

  /** Whatever reconciles a registry with a snapshot stores all of it, and keeps only what nobody reported on. */
  lemma ReconciledStores(s: Tables, t: Tables, plan: Plan, m: Definitions, managed: set<string>)
    requires Reconciled(s, plan, t) && PlansAll(plan, m, managed)
    requires forall id | id in m :: Prepared(m[id]) && WellFormed(m[id].sources)
    ensures StoresAll(t, m) && KeepsOnly(s, t, m, managed)
  {
    hide Holds, Prepared, WellFormed, EntryFor, Same, RowIs, ObservationsAre;
    forall id | id in m
      ensures id in t.entries && RowIs(t.entries[id], m[id]) && ObservationsAre(t, id, m[id].sources)
    {
      HeldRow(t, id, m[id]);
      HeldObservations(t, id, m[id]);
    }
    KeptIsSpared(s, t, plan, m, managed);
  }

  lemma SparedIff(s: Tables, plan: Plan, m: Definitions, managed: set<string>, id: SurfaceIdentity)
    requires PlansAll(plan, m, managed) && id !in m
    ensures Spared(s, m, managed, id) <==> id in s.entries && !Stale(plan, id)
  {
    hide EntryFor;
  }

  lemma KeptIsSpared(s: Tables, t: Tables, plan: Plan, m: Definitions, managed: set<string>)
    requires Reconciled(s, plan, t) && PlansAll(plan, m, managed)
    ensures KeepsOnly(s, t, m, managed)
  {
    hide Holds, EntryFor, Stale, Spared, Untouched;
    forall id ensures id in t.entries <==> id in m || Spared(s, m, managed, id)
      ensures id !in m && Spared(s, m, managed, id) ==> Untouched(s, t, id)
    {
      if id in m {
        HoldsPresent(t, id, plan.entries[id]);
      } else {
        SparedIff(s, plan, m, managed, id);
        if Spared(s, m, managed, id) { SameIsUntouched(s, t, id); }
      }
    }
  }

  lemma SameIsUntouched(s: Tables, t: Tables, id: SurfaceIdentity)
    requires Same(s, t, id)
    ensures Untouched(s, t, id)
  {
    forall key ensures var r := ObservationRow(id, key);
                       (r in t.observations <==> r in s.observations)
                       && (r in t.observations ==> t.observations[r] == s.observations[r])
    {
      var r := ObservationRow(id, key);
      assert r in RowsOf(t.observations, id) <==> r in t.observations;
      assert r in RowsOf(s.observations, id) <==> r in s.observations;
    }
  }
}
