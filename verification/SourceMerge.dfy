/** What merging the reports of one source computes (source_model.go): per field the first report
    that fills it, and the union of badges and aliases. */
module SourceMerge {
  import opened Text
  import opened Slugs
  import opened ModelIdentity
  import opened EntryMerge
  import opened CollectedSources
  import opened AuthorityFold

  /** The normalised reports of one key, in list order. */
  ghost function ReportsOf(sources: seq<CollectedSource>, k: Key): seq<CollectedSource> {
    if sources == [] then [] else
      var init, last := ReportsOf(sources[..|sources| - 1], k), sources[|sources| - 1];
      if IdentityKey(last) == Some(k) && Normalize(last).Some? then init + [Normalize(last).value] else init
  }

  ghost function FoldSources(reports: seq<CollectedSource>): CollectedSource
    requires reports != []
  {
    if |reports| == 1 then reports[0] else MergeSource(FoldSources(reports[..|reports| - 1]), reports[|reports| - 1])
  }

  lemma FoldSourcesSnoc(reports: seq<CollectedSource>, s: CollectedSource)
    ensures FoldSources(reports + [s]) == if reports == [] then s else MergeSource(FoldSources(reports), s)
  {
    hide MergeSource;
    assert (reports + [s])[..|reports + [s]| - 1] == reports;
  }

  lemma AddedSource(m: map<Key, CollectedSource>, s: CollectedSource, k: Key)
    requires CollectedSources.Keyed(m) && StableIDs(s)
    ensures IdentityKey(s) == Some(k) ==> Normalize(s).Some?
    ensures var after := AddSource(m, s);
            if IdentityKey(s) == Some(k)
              then k in after
                  && after[k] == (if k in m then MergeSource(m[k], Normalize(s).value) else Normalize(s).value)
            else (k in after <==> k in m) && (k in m ==> after[k] == m[k])
  {
    hide StableIDs, Normalize, IdentityKey, MergeNormalized, MergeSource, KeyOf;
    if IdentityKey(s).Some? {
      SourceFacts(s);
      var l := IdentityKey(s).value;
      if l in m { MergeNormalizedFacts(m[l], Normalize(s).value); }
    }
  }

  lemma {:induction false} MergedIsFold(sources: seq<CollectedSource>, k: Key)
    requires forall s | s in sources :: StableIDs(s)
    ensures k in Merged(sources) <==> ReportsOf(sources, k) != []
    ensures k in Merged(sources) ==> Merged(sources)[k] == FoldSources(ReportsOf(sources, k))
    decreases |sources|
  {
    hide StableIDs, Normalize, IdentityKey, AddSource, MergeSource, FoldSources;
    if sources != [] {
      var init, last := sources[..|sources| - 1], sources[|sources| - 1];
      assert forall s :: s in sources <==> s in init || s == last;
      MergedIsFold(init, k);
      MergedIsKeyed(init);
      AddedSource(Merged(init), last, k);
      if IdentityKey(last) == Some(k) { FoldSourcesSnoc(ReportsOf(init, k), Normalize(last).value); }
    }
  }

  /** The mergeable part of a source. */
  ghost function AsEntry(s: CollectedSource): CollectedEntry {
    CollectedEntry(s.definition, s.badges, s.pricing, [])
  }

  ghost function AsEntries(reports: seq<CollectedSource>): (r: seq<CollectedEntry>)
    ensures |r| == |reports| && forall i | 0 <= i < |r| :: r[i] == AsEntry(reports[i])
  {
    seq(|reports|, i requires 0 <= i < |reports| => AsEntry(reports[i]))
  }

  lemma NothingToOrder()
    ensures Canonical([]) == []
  {
    assert Ranks(Merged([])) == {};
  }

  lemma MergeAsEntries(p: CollectedSource, f: CollectedSource)
    ensures AsEntry(MergeSource(p, f)) == MergePair(AsEntry(p), AsEntry(f))
  {
    hide MergeDefinitions, MergeBadges, MergePricing, Canonical;
    NothingToOrder();
    var none: seq<CollectedSource> := [];
    assert none + none == [];
  }

  lemma {:induction false} FoldAsEntries(reports: seq<CollectedSource>)
    requires reports != []
    ensures AsEntry(FoldSources(reports)) == Filled(AsEntries(reports))
    ensures FoldSources(reports).displayName == reports[0].displayName && FoldSources(reports).kind == reports[0].kind
    decreases |reports|
  {
    hide MergePair, MergeDefinitions, MergeBadges, MergePricing, Canonical;
    if |reports| > 1 {
      var init, last := reports[..|reports| - 1], reports[|reports| - 1];
      FoldAsEntries(init);
      MergeAsEntries(FoldSources(init), last);
      assert AsEntries(reports)[..|reports| - 1] == AsEntries(init);
    }
  }

  lemma NormalizedFields(s: CollectedSource)
    requires Normalize(s).Some?
    ensures var n := Normalize(s).value; IsNormal(n.pricing) && NormalizeBadges(n.badges) == n.badges
  {
    NormalizedIsNormal(s.pricing);
    NormalizeBadgesTwice(s.badges);
    hide NormalizeBadges, NormalizePricing, IsNormal, VendorSlug, TrimSpace;
  }

  lemma {:induction false} ReportsAreNormal(sources: seq<CollectedSource>, k: Key)
    ensures forall s | s in ReportsOf(sources, k) :: IsNormal(s.pricing) && NormalizeBadges(s.badges) == s.badges
    decreases |sources|
  {
    hide Normalize, IdentityKey, IsNormal, NormalizeBadges;
    if sources != [] {
      ReportsAreNormal(sources[..|sources| - 1], k);
      if Normalize(sources[|sources| - 1]).Some? { NormalizedFields(sources[|sources| - 1]); }
    }
  }

  lemma EntriesAreNormal(reports: seq<CollectedSource>)
    requires forall s | s in reports :: IsNormal(s.pricing) && NormalizeBadges(s.badges) == s.badges
    ensures forall e | e in AsEntries(reports) :: IsNormal(e.pricing) && NormalizeBadges(e.badges) == e.badges
  {
    hide IsNormal, NormalizeBadges;
    forall e | e in AsEntries(reports) ensures IsNormal(e.pricing) && NormalizeBadges(e.badges) == e.badges {
      var i :| 0 <= i < |reports| && AsEntries(reports)[i] == e;
      assert reports[i] in reports;
    }
  }

  /** The one source kept for a key: every number, list and price is the first there is among the
      reports in list order, aliases and badges are united, and the name and kind are the first's. */
  lemma MergedSourceFields(sources: seq<CollectedSource>, k: Key)
    requires (forall s | s in sources :: StableIDs(s)) && k in Merged(sources)
    ensures var r, reports := Merged(sources)[k], ReportsOf(sources, k);
            var es := AsEntries(reports);
            && reports != [] && r.displayName == reports[0].displayName && r.kind == reports[0].kind
            && (forall n :: IsFirst(Numbers(es, n), 0, Number(AsEntry(r), n)))
            && (forall l :: IsFirst(AuthorityFold.Lists(es, l), [], List(AsEntry(r), l)))
            && (forall p :: IsFirst(Prices(es, p), "", Price(r.pricing, p)))
            && (forall a :: a in AliasesOf(AsEntry(r)) <==> exists e :: e in es && a in AliasesOf(e))
            && (forall b :: b in r.badges <==> exists e :: e in es && b in e.badges)
  {
    MergedIsFold(sources, k);
    var r, reports := Merged(sources)[k], ReportsOf(sources, k);
    ReportsAreNormal(sources, k);
    FoldAsEntries(reports);
    EntriesAreNormal(reports);
    var es := AsEntries(reports);
    hide Merged, ReportsOf, FoldSources, Filled, IsNormal, NormalizeBadges, IsFirst, AliasesOf, Number, List, Price,
      StableIDs;
    forall n ensures IsFirst(Numbers(es, n), 0, Number(AsEntry(r), n)) { FilledNumbers(es, n); }
    forall l ensures IsFirst(AuthorityFold.Lists(es, l), [], List(AsEntry(r), l)) { FilledLists(es, l); }
    forall p ensures IsFirst(Prices(es, p), "", Price(r.pricing, p)) { FilledPrices(es, p); }
    forall a ensures a in AliasesOf(AsEntry(r)) <==> exists e :: e in es && a in AliasesOf(e) {
      FilledUnions(es, a, "");
    }
    forall b ensures b in r.badges <==> exists e :: e in es && b in e.badges {
      FilledUnions(es, Alias.Alias(Unspecified, ""), b);
    }
  }
}
