/** What the fan-in of the collectors guarantees: one outcome for every completion order, the
    authority fold per model, and no vendor marked as collected without a valid definition. */
module GlobalSnapshot {
  import opened Text
  import opened Ordering
  import opened Slugs
  import opened EntryMerge
  import opened CollectedSources
  import opened SourceAuthority
  import opened AuthorityFold
  import opened Identities
  import opened Snapshot
  import opened Collect

  // ---- Completion order -------------------------------------------------------------------------

  ghost predicate DistinctSources(runs: seq<SourceResult>) {
    forall i, j | 0 <= i < j < |runs| :: runs[i].sourceID != runs[j].sourceID
  }

  lemma BeforeConnects(a: SourceResult, b: SourceResult)
    requires a.sourceID != b.sourceID
    ensures Before(a, b) || Before(b, a)
  {
    StringsAreOrdered();
  }

  lemma {:induction false} InsertKeepsSorted(r: SourceResult, s: seq<SourceResult>)
    requires Sorted(Before, s) && forall x | x in s :: x.sourceID != r.sourceID
    ensures Sorted(Before, InsertResult(r, s))
  {
    BeforeIsOrder();
    hide Before;
    if s != [] {
      FirstIsIn(s);
      if Before(r, s[0]) {
        assert forall x | x in s[1..] :: Before(s[0], x);
      } else {
        BeforeConnects(r, s[0]);
        forall x | x in s[1..] ensures x in s {}
        InsertKeepsSorted(r, s[1..]);
        InsertMembers(r, s[1..]);
        var rest := InsertResult(r, s[1..]);
        forall x | x in rest ensures Before(s[0], x) {}
      }
    }
  }

  lemma {:induction false} SortedByAuthority(runs: seq<SourceResult>)
    requires DistinctSources(runs)
    ensures Sorted(Before, SortResults(runs))
    decreases |runs|
  {
    hide Before;
    if runs != [] {
      var init, last := runs[..|runs| - 1], runs[|runs| - 1];
      SortedByAuthority(init);
      SortMembers(init);
      forall x | x in SortResults(init) ensures x.sourceID != last.sourceID {
        var i :| 0 <= i < |init| && init[i] == x;
        assert runs[i] == x;
      }
      InsertKeepsSorted(last, SortResults(init));
    }
  }

  lemma DistinctPermutation(a: seq<SourceResult>, b: seq<SourceResult>)
    requires multiset(a) == multiset(b)
    ensures forall x :: x in a <==> x in b
  {
    forall x ensures x in a <==> x in b { assert x in a <==> x in multiset(a); assert x in b <==> x in multiset(b); }
  }

  /** Whatever the order in which the collectors finish, the merged snapshot is the same. */
  lemma CompletionOrderIsInvisible(a: seq<SourceResult>, b: seq<SourceResult>, valid: ModelVersion -> bool)
    requires multiset(a) == multiset(b) && DistinctSources(a) && DistinctSources(b)
    ensures SortResults(a) == SortResults(b) && Global(a, valid) == Global(b, valid)
  {
    hide Before, SortResults, OverlayAll;
    DistinctPermutation(a, b);
    SortMembers(a);
    SortMembers(b);
    SortedByAuthority(a);
    SortedByAuthority(b);
    BeforeIsOrder();
    SortedIsUnique(Before, SortResults(a), SortResults(b));
  }

  // ---- The fold per model -----------------------------------------------------------------------

  /** The collected entries of one model, collector by collector. */
  ghost function Reports(runs: seq<SourceResult>, k: SurfaceIdentity,
            valid: ModelVersion -> bool): seq<CollectedEntry> {
    if runs == [] then [] else
      var init, last := Reports(runs[..|runs| - 1], k, valid), runs[|runs| - 1];
      if !last.failed && k in Local(last, valid) then init + [Local(last, valid)[k]] else init
  }

  /** Each entry of the snapshot is the fold of the collectors' entries. */
  lemma {:induction false} EntryIsFold(runs: seq<SourceResult>, k: SurfaceIdentity, valid: ModelVersion -> bool)
    ensures At(OverlayAll(runs, valid), k)
            == if Reports(runs, k, valid) == [] then None else Some(Folded(Reports(runs, k, valid)))
    decreases |runs|
  {
    hide Local, MergeEntries;
    if runs != [] {
      var init, last := runs[..|runs| - 1], runs[|runs| - 1];
      EntryIsFold(init, k, valid);
      if !last.failed && k in Local(last, valid) {
        FoldedSnoc(Reports(init, k, valid), Local(last, valid)[k]);
      }
    }
  }

  lemma FoldedSnoc(entries: seq<CollectedEntry>, e: CollectedEntry)
    ensures Folded(entries + [e]) == if entries == [] then e else MergeEntries(Folded(entries), e)
  {
    hide MergeEntries;
    assert (entries + [e])[..|entries + [e]| - 1] == entries;
  }

  // ---- Collectors that report under their own id ------------------------------------------------

  /** The sources name the collector, and leave the priority to the authority table. */
  ghost predicate OwnedBy(sources: seq<CollectedSource>, id: string) {
    forall s | s in sources :: VendorSlug(s.sourceID) == id && s.authorityPriority == 0
  }

  /** At least one of the sources is usable. */
  ghost predicate HasSource(sources: seq<CollectedSource>) {
    exists s :: s in sources && IdentityKey(s).Some?
  }

  ghost predicate Attributed(e: CollectedEntry, id: string) {
    OwnedBy(e.sources, id) && HasSource(e.sources)
  }

  /** A registered collector: its id and priority are in the authority table, and everything it
      reports is attributed to it. */
  ghost predicate Registered(run: SourceResult) {
    && run.sourceID in AUTHORITY && run.authorityPriority == AUTHORITY[run.sourceID]
    && forall v, e | v in run.grouped && e in run.grouped[v] :: Attributed(e, run.sourceID)
  }

  lemma CanonicalIsOwned(sources: seq<CollectedSource>, id: string)
    requires Plain(sources) && OwnedBy(sources, id) && HasSource(sources)
    ensures OwnedBy(Canonical(sources), id) && HasSource(Canonical(sources))
  {
    var m, out := Merged(sources), Canonical(sources);
    PlainIsWellFormed(sources);
    CanonicalLists(sources);
    hide StableIDs, Merged, Canonical, Normalize, VendorSlug, WellFormed, IsTopPriority, KeyOf, IdentityKey;
    forall s | s in out ensures VendorSlug(s.sourceID) == id && s.authorityPriority == 0 {
      MergedPriority(sources, KeyOf(s));
      TopIsOwned(sources, KeyOf(s), s, id);
    }
    var s :| s in sources && IdentityKey(s).Some?;
    var k := IdentityKey(s).value;
    CleanSourceKey(m[k]);
    assert m[k] in out;
  }

  lemma TopIsOwned(sources: seq<CollectedSource>, k: Key, merged: CollectedSource, id: string)
    requires Plain(sources) && OwnedBy(sources, id) && IsTopPriority(sources, k, merged.authorityPriority)
    requires KeyOf(merged) == k && Normalize(merged) == Some(merged)
    ensures VendorSlug(merged.sourceID) == id && merged.authorityPriority == 0
  {
    var s :| s in sources && IdentityKey(s) == Some(k) && s.authorityPriority == merged.authorityPriority;
    CleanIDs(merged);
    KeySource(s);
    hide StableIDs, VendorSlug, IdentityKey, Normalize;
  }

  lemma KeySource(s: CollectedSource)
    requires StableIDs(s) && IdentityKey(s).Some?
    ensures IdentityKey(s).value.sourceID == VendorSlug(s.sourceID)
  {
    SourceFacts(s);
    hide VendorSlug, Slugs.Stable, TrimSpace, NormalizeBadges, NormalizePricing, IdentityKey;
  }

  lemma ConcatIsOwned(a: seq<CollectedSource>, b: seq<CollectedSource>, id: string)
    requires OwnedBy(a, id) && OwnedBy(b, id) && HasSource(a)
    ensures OwnedBy(a + b, id) && HasSource(a + b)
  {
    hide VendorSlug, IdentityKey;
    var s :| s in a && IdentityKey(s).Some?;
    assert s in a + b;
  }

  lemma MergeIsAttributed(p: CollectedEntry, f: CollectedEntry, id: string)
    requires Plain(p.sources) && Plain(f.sources) && Attributed(p, id) && Attributed(f, id)
    ensures Attributed(MergeEntries(p, f), id)
  {
    hide OwnedBy, HasSource, Plain, Canonical, Higher, AuthorityOfEntry, WellFormed, MergeDefinitions, MergeBadges,
      MergePricing;
    ConcatIsOwned(p.sources, f.sources, id);
    ConcatIsOwned(f.sources, p.sources, id);
    PlainConcat(p.sources, f.sources);
    PlainConcat(f.sources, p.sources);
    CanonicalIsOwned(p.sources + f.sources, id);
    CanonicalIsOwned(f.sources + p.sources, id);
  }

  ghost predicate AllAttributed(m: Definitions, id: string) {
    forall k | k in m :: Attributed(m[k], id) && Plain(m[k].sources)
  }

  lemma ReportIsAttributed(v: string, item: CollectedEntry, valid: ModelVersion -> bool, id: string)
    requires Plain(item.sources) && Attributed(item, id)
    ensures var e := Report(v, item, valid); e.Some? ==> Attributed(e.value, id) && Plain(e.value.sources)
  {
    CanonicalIsOwned(item.sources, id);
    CanonicalIsPlain(item.sources);
    ReportSources(v, item, valid);
    hide OwnedBy, HasSource, Plain, Report, Canonical;
  }

  lemma ReportSources(v: string, item: CollectedEntry, valid: ModelVersion -> bool)
    ensures var e := Report(v, item, valid); e.Some? ==> e.value.sources == Canonical(item.sources)
  {
    hide Candidate, IdentityOf, Canonical, NormalizeBadges, NormalizePricing;
  }

  lemma AllAttributedUpdate(m: Definitions, k: SurfaceIdentity, e: CollectedEntry, id: string)
    requires AllAttributed(m, id) && Attributed(e, id) && Plain(e.sources)
    ensures AllAttributed(m[k := e], id)
  {
    hide Attributed, Plain;
  }

  lemma AddItemIsAttributed(m: Definitions, v: string, item: CollectedEntry, valid: ModelVersion -> bool, id: string)
    requires AllAttributed(m, id) && Plain(item.sources) && Attributed(item, id)
    ensures AllAttributed(AddItem(m, v, item, valid), id)
  {
    ReportIsAttributed(v, item, valid, id);
    ReportIdentity(v, item, valid);
    hide Attributed, Plain, Report, IdentityOf, MergeEntries, TrimSpace, Join;
    var e := Report(v, item, valid);
    if e.Some? {
      var k := IdentityOf(e.value.definition).value;
      JoinIsAttributed(m, k, e.value, id);
      AllAttributedUpdate(m, k, Join(At(m, k), e.value), id);
    }
  }

  lemma JoinIsAttributed(m: Definitions, k: SurfaceIdentity, e: CollectedEntry, id: string)
    requires AllAttributed(m, id) && Attributed(e, id) && Plain(e.sources)
    ensures var j := Join(At(m, k), e); Attributed(j, id) && Plain(j.sources)
  {
    hide Attributed, Plain, MergeEntries;
    if k in m {
      MergeIsAttributed(m[k], e, id);
      MergeEntriesIsPlain(m[k], e);
    }
  }

  lemma {:induction false} AddItemsIsAttributed(m: Definitions, v: string, items: seq<CollectedEntry>,
            valid: ModelVersion -> bool, id: string)
    requires AllAttributed(m, id) && PlainItems(items) && forall e | e in items :: Attributed(e, id)
    ensures AllAttributed(AddItems(m, v, items, valid), id)
    decreases |items|
  {
    hide AllAttributed, Attributed, Plain, AddItem;
    if items != [] {
      var init, last := items[..|items| - 1], items[|items| - 1];
      assert forall e :: e in items <==> e in init || e == last;
      AddItemsIsAttributed(m, v, init, valid, id);
      AddItemIsAttributed(AddItems(m, v, init, valid), v, last, valid, id);
    }
  }

  lemma {:induction false} GroupsAreAttributed(grouped: Groups, done: set<string>, valid: ModelVersion -> bool,
            id: string)
    requires done <= grouped.Keys && PlainGroups(grouped)
    requires forall v, e | v in grouped && e in grouped[v] :: Attributed(e, id)
    ensures AllAttributed(MergedGroups(map[], grouped, done, valid), id)
    decreases |done|
  {
    hide Attributed, AddItems, PlainItems, AllAttributed;
    if done == {} {
      NoneAttributed(id);
    } else {
      var v :| v in done
          && MergedGroups(map[], grouped, done, valid)
             == AddItems(MergedGroups(map[], grouped, done - {v}, valid), v, grouped[v], valid);
      GroupsAreAttributed(grouped, done - {v}, valid, id);
      AddItemsIsAttributed(MergedGroups(map[], grouped, done - {v}, valid), v, grouped[v], valid, id);
    }
  }

  lemma NoneAttributed(id: string)
    ensures AllAttributed(map[], id)
  {
  }

  /** What a registered collector collects has the collector's authority. */
  lemma LocalAuthority(run: SourceResult, k: SurfaceIdentity, valid: ModelVersion -> bool)
    requires Usable(run) && Registered(run) && MergingKeepsValid(valid) && k in Local(run, valid)
    ensures Complete(Local(run, valid)[k], valid) && Attributed(Local(run, valid)[k], run.sourceID)
    ensures AuthorityOfEntry(Local(run, valid)[k]) == Authority(run.authorityPriority, run.sourceID)
  {
    LocalIsMerge(run, valid);
    GroupsAreAttributed(run.grouped, run.grouped.Keys, valid, run.sourceID);
    hide Complete, Plain, MergedGroups, IsMerge, IdentityOf, AUTHORITY, MergingKeepsValid, TrimmedVendors,
      PlainGroups, HasSource, OwnedBy;
    OwnedAuthority(Local(run, valid)[k].sources, run.sourceID);
  }

  lemma OwnedAuthority(sources: seq<CollectedSource>, id: string)
    requires OwnedBy(sources, id) && HasSource(sources) && id in AUTHORITY
    ensures AuthorityOf(sources) == Authority(AUTHORITY[id], id)
  {
    BestIsBest(sources);
    hide VendorSlug, IdentityKey, CompareSourceID, Best, AuthorityOf, AUTHORITY;
    var s :| s in sources && AuthorityOfSource(s) == Best(sources);
  }

  // ---- The theorem ------------------------------------------------------------------------------

  ghost predicate AllRegistered(runs: seq<SourceResult>) {
    forall r | r in runs :: Registered(r)
  }

  /** No two sources of the authority table have the same priority. */
  lemma PrioritiesDiffer(a: string, b: string)
    requires a in AUTHORITY && b in AUTHORITY && AUTHORITY[a] == AUTHORITY[b]
    ensures a == b
  {
  }

  lemma SortedDescends(a: SourceResult, b: SourceResult)
    requires Before(a, b) && Registered(a) && Registered(b) && a.sourceID != b.sourceID
    ensures Higher(Authority(a.authorityPriority, a.sourceID), Authority(b.authorityPriority, b.sourceID))
  {
    hide Attributed, Less, CompareSourceID, AUTHORITY;
    if a.authorityPriority == b.authorityPriority { PrioritiesDiffer(a.sourceID, b.sourceID); }
  }

  ghost predicate ReportOf(runs: seq<SourceResult>, e: CollectedEntry, k: SurfaceIdentity,
            valid: ModelVersion -> bool, r: SourceResult) {
    r in runs && !r.failed && k in Local(r, valid) && e == Local(r, valid)[k]
  }

  /** The reports of a model come from the collectors, in their order. */
  lemma {:induction false} ReportsDescend(runs: seq<SourceResult>, k: SurfaceIdentity, valid: ModelVersion -> bool)
    requires Standard(runs, valid) && AllRegistered(runs) && Sorted(Before, runs) && DistinctSources(runs)
    ensures Descending(Reports(runs, k, valid))
    ensures forall e | e in Reports(runs, k, valid) :: exists r :: ReportOf(runs, e, k, valid, r)
    decreases |runs|
  {
    hide Local, Usable, Registered, MergingKeepsValid, Before, Higher, AuthorityOfEntry, Complete, Attributed;
    if runs != [] {
      var init, last := runs[..|runs| - 1], runs[|runs| - 1];
      assert forall r :: r in runs <==> r in init || r == last;
      ReportsDescend(init, k, valid);
      var before, all := Reports(init, k, valid), Reports(runs, k, valid);
      forall e | e in all ensures exists r :: ReportOf(runs, e, k, valid, r) {
        if e in before {
          var r :| ReportOf(init, e, k, valid, r);
          assert ReportOf(runs, e, k, valid, r);
        } else {
          assert ReportOf(runs, e, k, valid, last);
        }
      }
      if all != before {
        forall i | 0 <= i < |before| ensures Higher(AuthorityOfEntry(before[i]), AuthorityOfEntry(all[|before|])) {
          assert before[i] in before;
          var r :| ReportOf(init, before[i], k, valid, r);
          var j :| 0 <= j < |init| && init[j] == r;
          assert runs[j] == r && Before(r, last) && r.sourceID != last.sourceID;
          LocalAuthority(r, k, valid);
          LocalAuthority(last, k, valid);
          SortedDescends(r, last);
        }
      }
    }
  }

  lemma {:induction false} AllSourcesOf(entries: seq<CollectedEntry>, s: CollectedSource)
    requires s in AllSources(entries)
    ensures exists e :: e in entries && s in e.sources
    decreases |entries|
  {
    var init, last := entries[..|entries| - 1], entries[|entries| - 1];
    assert forall e :: e in entries <==> e in init || e == last;
    if s !in last.sources { AllSourcesOf(init, s); }
  }

  lemma CompleteSource(e: CollectedEntry, s: CollectedSource, valid: ModelVersion -> bool)
    requires Complete(e, valid) && s in e.sources
    ensures StableIDs(s) && s.authorityPriority >= 0 && Normalize(s) == Some(s)
  {
    PlainIsWellFormed(e.sources);
    CanonicalLists(e.sources);
    hide StableIDs, Merged, Canonical, Normalize, WellFormed, IdentityKey, KeyOf, Defaulted, NormalizeBadges,
      NormalizePricing;
  }

  lemma SourceIsUnranked(e: CollectedEntry, s: CollectedSource, id: string)
    requires Attributed(e, id) && s in e.sources
    ensures s.authorityPriority == 0
  {
    hide VendorSlug, IdentityKey;
  }

  lemma ReportsAreFoldable(runs: seq<SourceResult>, k: SurfaceIdentity, valid: ModelVersion -> bool)
    requires Standard(runs, valid) && AllRegistered(runs) && Reports(runs, k, valid) != []
    requires forall e | e in Reports(runs, k, valid) :: exists r :: ReportOf(runs, e, k, valid, r)
    ensures Foldable(Reports(runs, k, valid)) && Defaulted(Reports(runs, k, valid)[0])
  {
    var es := Reports(runs, k, valid);
    hide Reports, Local, Usable, Registered, MergingKeepsValid, Complete, Attributed, Normalize, StableIDs, Prepared,
      AuthorityOfEntry, Defaulted;
    forall e | e in es ensures Prepared(e) && Defaulted(e) {
      var r :| ReportOf(runs, e, k, valid, r);
      LocalAuthority(r, k, valid);
      CompleteIsPrepared(e, valid);
    }
    var all := AllSources(es);
    forall s | s in all ensures StableIDs(s) && s.authorityPriority == 0 && Normalize(s) == Some(s) {
      AllSourcesOf(es, s);
      var e :| e in es && s in e.sources;
      var r :| ReportOf(runs, e, k, valid, r);
      LocalAuthority(r, k, valid);
      CompleteSource(e, s, valid);
      SourceIsUnranked(e, s, r.sourceID);
    }
    assert es[0] in es;
  }

  lemma CompleteIsPrepared(e: CollectedEntry, valid: ModelVersion -> bool)
    requires Complete(e, valid)
    ensures Prepared(e) && Defaulted(e)
  {
  }

  /** The entry is the authority fold of the reports: names and shapes are the most trusted
      collector's, every number, list and price is the first there is in authority order, and the
      sources of all reports are kept. */
  ghost predicate IsAuthorityFold(es: seq<CollectedEntry>, e: CollectedEntry) {
    && es != [] && Descending(es) && e == Folded(es)
    && e.definition.Some? && es[0].definition.Some?
    && e.definition.value.displayName == es[0].definition.value.displayName
    && e.definition.value.primaryShape == es[0].definition.value.primaryShape
    && e.sources == Canonical(AllSources(es))
    && (forall n :: IsFirst(Numbers(es, n), 0, Number(e, n)))
    && (forall l :: IsFirst(AuthorityFold.Lists(es, l), [], List(e, l)))
    && (forall p :: IsFirst(Prices(es, p), "", Price(e.pricing, p)))
  }

  lemma FoldedByAuthority(es: seq<CollectedEntry>)
    requires Foldable(es) && Descending(es) && Defaulted(es[0])
    ensures IsAuthorityFold(es, Folded(es))
  {
    DescendingFold(es);
    DescendingFoldKeepsFirst(es);
    hide Folded, Descending, IsFirst, Prepared, Tidy, Canonical, Number, List, Price, HasKey, AliasesOf;
  }

  /** With collectors registered in the authority table, whatever order they finish in: the snapshot
      has an entry for exactly the models somebody reported, and it is the authority fold of the
      reports. */
  lemma GlobalEntryIsAuthorityFold(runs: seq<SourceResult>, k: SurfaceIdentity, valid: ModelVersion -> bool)
    requires Standard(runs, valid) && AllRegistered(runs) && DistinctSources(runs)
    ensures var es, entry := Reports(SortResults(runs), k, valid), At(Global(runs, valid), k);
            && (entry.Some? <==> es != [])
            && (entry.Some? ==> IsAuthorityFold(es, entry.value))
  {
    var sorted := SortResults(runs);
    SortMembers(runs);
    SortedByAuthority(runs);
    SortedIsDistinct(runs);
    hide Standard, AllRegistered, DistinctSources, SortResults, OverlayAll, Before, Reports, Sorted, At,
      IsAuthorityFold, Descending, Folded, Foldable, Defaulted, ReportOf;
    SortedIsStandard(runs, sorted, valid);
    EntryIsFold(sorted, k, valid);
    ReportsDescend(sorted, k, valid);
    if Reports(sorted, k, valid) != [] {
      ReportsAreFoldable(sorted, k, valid);
      FoldedByAuthority(Reports(sorted, k, valid));
    }
  }

  lemma SortedIsStandard(runs: seq<SourceResult>, sorted: seq<SourceResult>, valid: ModelVersion -> bool)
    requires Standard(runs, valid) && AllRegistered(runs) && forall r :: r in sorted <==> r in runs
    ensures Standard(sorted, valid) && AllRegistered(sorted)
  {
    hide Usable, Registered, MergingKeepsValid;
  }

  lemma SortedIsDistinct(runs: seq<SourceResult>)
    requires DistinctSources(runs)
    ensures DistinctSources(SortResults(runs))
  {
    SortedByAuthority(runs);
    SortMembers(runs);
    BeforeIsOrder();
    hide Before, SortResults;
    var sorted := SortResults(runs);
    forall i, j | 0 <= i < j < |sorted| ensures sorted[i].sourceID != sorted[j].sourceID {
      assert Before(sorted[i], sorted[j]) && sorted[i] in sorted && sorted[j] in sorted;
      var a :| 0 <= a < |runs| && runs[a] == sorted[i];
      var b :| 0 <= b < |runs| && runs[b] == sorted[j];
    }
  }

  // ---- Collected vendors ------------------------------------------------------------------------

  lemma {:induction false} SnapshotIsHealthy(runs: seq<SourceResult>, valid: ModelVersion -> bool)
    requires Standard(runs, valid)
    ensures Healthy(OverlayAll(runs, valid), valid)
    decreases |runs|
  {
    hide Healthy, Local, Usable, MergingKeepsValid, Overlay;
    if runs == [] {
      HealthyNone(valid);
    } else {
      var init, last := runs[..|runs| - 1], runs[|runs| - 1];
      assert forall r :: r in runs <==> r in init || r == last;
      SnapshotIsHealthy(init, valid);
      LocalIsMerge(last, valid);
      OverlayIsHealthy(OverlayAll(init, valid), Local(last, valid), valid);
    }
  }

  predicate IsValid(e: CollectedEntry, valid: ModelVersion -> bool) {
    e.definition.Some? && valid(e.definition.value)
  }

  /** A vendor counts as collected exactly when the snapshot holds a validated definition of it. */
  lemma CollectedVendorsAreDefined(runs: seq<SourceResult>, vendor: string, valid: ModelVersion -> bool)
    requires Standard(runs, valid)
    ensures var m := Global(runs, valid);
            vendor in Vendors(m) <==> exists k :: k in m && k.vendorID == vendor && IsValid(m[k], valid)
  {
    SortMembers(runs);
    SortedKeepsStandard(runs, SortResults(runs), valid);
    SnapshotIsHealthy(SortResults(runs), valid);
    hide OverlayAll, SortResults, Prepared, Plain, Standard, TrimSpace;
  }

  lemma SortedKeepsStandard(runs: seq<SourceResult>, sorted: seq<SourceResult>, valid: ModelVersion -> bool)
    requires Standard(runs, valid) && forall r :: r in sorted <==> r in runs
    ensures Standard(sorted, valid)
  {
    hide Usable, MergingKeepsValid;
  }

  /** When no collector yields anything, no vendor counts as collected. */
  lemma {:induction false} NothingCollected(runs: seq<SourceResult>, valid: ModelVersion -> bool)
    requires forall r | r in runs :: r.failed || Local(r, valid) == map[]
    ensures OverlayAll(runs, valid) == map[]
    decreases |runs|
  {
    hide Local;
    if runs != [] {
      var init, last := runs[..|runs| - 1], runs[|runs| - 1];
      assert forall r :: r in runs <==> r in init || r == last;
      NothingCollected(init, valid);
    }
  }
}
