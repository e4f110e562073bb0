/** In which orders the reports of one model can be merged: every fold is a gap-filling merge in some
    order, and exactly the orders that always go on above or below what is merged leave every entry as
    the descending order does (definition_merge.go). */
module FoldOrder {
  import opened Text
  import opened Ordering
  import opened EntryMerge
  import opened CollectedSources
  import opened SourceAuthority
  import opened AuthorityFold
  import Snapshot

  // ---- Merging is associative, but for the swap -------------------------------------------------

  lemma MergeBadgesAssociative(a: seq<string>, b: seq<string>, c: seq<string>)
    ensures MergeBadges(MergeBadges(a, b), c) == MergeBadges(a, MergeBadges(b, c))
  {
    StringsAreOrdered();
    MergedBadgeMembers(a, b);
    MergedBadgeMembers(b, c);
    MergedBadgeMembers(MergeBadges(a, b), c);
    MergedBadgeMembers(a, MergeBadges(b, c));
    NormalizeBadgesTwice(a + b);
    NormalizeBadgesTwice(b + c);
    hide KnownBadges, Less;
    SortedIsUnique(Less, MergeBadges(MergeBadges(a, b), c), MergeBadges(a, MergeBadges(b, c)));
  }

  lemma MergeSourceAssociative(a: CollectedSource, b: CollectedSource, c: CollectedSource)
    requires KeyOf(a) == KeyOf(b) == KeyOf(c)
    ensures MergeSource(MergeSource(a, b), c) == MergeSource(a, MergeSource(b, c))
  {
    MergeBadgesAssociative(a.badges, b.badges, c.badges);
    MergeDefinitionsAssociative(a.definition, b.definition, c.definition);
    MergePricingAssociative(a.pricing, b.pricing, c.pricing);
    hide MergeBadges, MergeDefinitions, MergePricing;
  }

  ghost predicate AllClean(sources: seq<CollectedSource>) {
    forall s | s in sources :: Normalize(s) == Some(s)
  }

  lemma CleanIsKeyed(sources: seq<CollectedSource>)
    requires AllClean(sources)
    ensures Keyed(Merged(sources)) && forall s | s in sources :: StableIDs(s)
  {
    hide Normalize, StableIDs, Merged;
    forall s | s in sources ensures StableIDs(s) { Snapshot.CleanIsStable(s); }
    MergedIsKeyed(sources);
  }

  type Sources = map<Key, CollectedSource>

  /** The sources of two lists, already merged by key. */
  function Joined(m: Sources, n: Sources): Sources {
    map k | k in m.Keys + n.Keys ::
      if k !in m then n[k] else if k !in n then m[k] else MergeSource(m[k], n[k])
  }

  lemma AddClean(m: Sources, s: CollectedSource)
    requires Keyed(m) && Normalize(s) == Some(s)
    ensures AddSource(m, s) == m[KeyOf(s) := if KeyOf(s) in m then MergeSource(m[KeyOf(s)], s) else s]
  {
    hide Normalize, MergeSource, MergeNormalized, IdentityKey, KeyOf;
    CleanSourceKey(s);
    if KeyOf(s) in m { MergeNormalizedFacts(m[KeyOf(s)], s); }
  }

  function Put(m: Sources, k: Key, s: CollectedSource): Sources {
    m[k := if k in m then MergeSource(m[k], s) else s]
  }

  lemma JoinPut(m: Sources, n: Sources, k: Key, s: CollectedSource)
    requires k in m && k in n ==> MergeSource(MergeSource(m[k], n[k]), s) == MergeSource(m[k], MergeSource(n[k], s))
    ensures Put(Joined(m, n), k, s) == Joined(m, Put(n, k, s))
  {
    hide MergeSource;
  }

  lemma JoinMore(m: Sources, n: Sources, s: CollectedSource)
    requires Keyed(m) && Keyed(n) && Keyed(Joined(m, n)) && Normalize(s) == Some(s)
    ensures AddSource(Joined(m, n), s) == Joined(m, AddSource(n, s))
  {
    hide Normalize, MergeSource, AddSource, KeyOf, Joined;
    AddClean(n, s);
    AddClean(Joined(m, n), s);
    var k := KeyOf(s);
    if k in m && k in n { MergeSourceAssociative(m[k], n[k], s); }
    JoinPut(m, n, k, s);
  }

  lemma {:induction false} MergedConcat(a: seq<CollectedSource>, b: seq<CollectedSource>)
    requires AllClean(a) && AllClean(b)
    ensures Merged(a + b) == Joined(Merged(a), Merged(b))
    decreases |b|
  {
    hide Normalize, AddSource, MergeSource;
    if b == [] {
      assert a + b == a;
    } else {
      var init, s := b[..|b| - 1], b[|b| - 1];
      assert (a + b)[..|a + b| - 1] == a + init;
      MergedConcat(a, init);
      CleanIsKeyed(a);
      CleanIsKeyed(init);
      CleanIsKeyed(a + init);
      hide Keyed, Joined;
      JoinMore(Merged(a), Merged(init), s);
    }
  }

  /** Normalising the sources that follow loses nothing. */
  lemma CanonicalPrepend(a: seq<CollectedSource>, b: seq<CollectedSource>)
    requires AllClean(a) && AllClean(b) && WellFormed(b)
    ensures Canonical(a + Canonical(b)) == Canonical(a + b)
  {
    MergedOfCanonical(b);
    CanonicalLists(b);
    assert AllClean(Canonical(b)) by { hide Normalize, Merged, Canonical, IdentityKey, KeyOf, WellFormed; }
    hide AllClean, WellFormed, Merged, Joined;
    MergedConcat(a, Canonical(b));
    MergedConcat(a, b);
  }

  // ---- The sources of merged entries ------------------------------------------------------------

  /** Every source is clean, and has the key and the priority of one of those in `all`. */
  ghost predicate Derived(sources: seq<CollectedSource>, all: seq<CollectedSource>) {
    forall s | s in sources :: Normalize(s) == Some(s) && Known(s, all)
  }

  ghost predicate Known(s: CollectedSource, all: seq<CollectedSource>) {
    exists t :: t in all && KeyOf(t) == KeyOf(s) && t.authorityPriority == s.authorityPriority
  }

  lemma DerivedIsTidy(sources: seq<CollectedSource>, all: seq<CollectedSource>)
    requires Tidy(all) && Derived(sources, all)
    ensures Tidy(sources)
  {
    hide Normalize, IdentityKey, StableIDs, KeyOf;
    forall s | s in sources ensures StableIDs(s) && IdentityKey(s) == Some(KeyOf(s)) {
      Snapshot.CleanIsStable(s);
      CleanSourceKey(s);
    }
    forall t | t in all ensures IdentityKey(t) == Some(KeyOf(t)) { CleanSourceKey(t); }
  }

  lemma CanonicalIsDerived(sources: seq<CollectedSource>, all: seq<CollectedSource>)
    requires Tidy(all) && Derived(sources, all)
    ensures Derived(Canonical(sources), all)
  {
    hide Normalize, IdentityKey, StableIDs, KeyOf, Merged, Canonical, Fits, Coherent;
    DerivedIsTidy(sources, all);
    CanonicalLists(sources);
    var m := Merged(sources);
    forall x | x in Canonical(sources) ensures Normalize(x) == Some(x) && Known(x, all) {
      MergedPriority(sources, KeyOf(x));
      var s :| s in sources && IdentityKey(s) == Some(KeyOf(x)) && s.authorityPriority == x.authorityPriority;
      CleanSourceKey(s);
    }
  }

  /** A report whose sources are known. */
  ghost predicate Sound(e: CollectedEntry, all: seq<CollectedSource>) {
    Derived(e.sources, all) && IsNormal(e.pricing)
  }

  lemma PairIsSound(a: CollectedEntry, b: CollectedEntry, all: seq<CollectedSource>)
    requires Tidy(all) && Sound(a, all) && Sound(b, all)
    ensures Tidy(a.sources + b.sources) && Sound(MergePair(a, b), all)
  {
    PairIsNormal(a, b);
    hide Normalize, Known, Canonical, Tidy, MergeDefinitions, MergeBadges, MergePricing, IsNormal;
    DerivedIsTidy(a.sources + b.sources, all);
    CanonicalIsDerived(a.sources + b.sources, all);
  }

  /** Without the swap, merging is associative in every part of the entry. */
  lemma PairsAssociate(a: CollectedEntry, b: CollectedEntry, c: CollectedEntry, all: seq<CollectedSource>)
    requires Tidy(all) && Sound(a, all) && Sound(b, all) && Sound(c, all)
    ensures MergePair(MergePair(a, b), c) == MergePair(a, MergePair(b, c))
  {
    hide Normalize, Canonical, MergeDefinitions, MergeBadges, MergePricing, IsNormal, Coherent;
    PairIsSound(a, b, all);
    PairIsSound(b, c, all);
    MergeDefinitionsAssociative(a.definition, b.definition, c.definition);
    MergeBadgesAssociative(a.badges, b.badges, c.badges);
    MergePricingAssociative(a.pricing, b.pricing, c.pricing);
    hide WellFormed, Known;
    CanonicalAppend(a.sources + b.sources, c.sources);
    CanonicalPrepend(a.sources, b.sources + c.sources);
    assert a.sources + (b.sources + c.sources) == (a.sources + b.sources) + c.sources;
  }

  ghost predicate AllSound(entries: seq<CollectedEntry>, all: seq<CollectedSource>) {
    forall e | e in entries :: Sound(e, all)
  }

  lemma {:induction false} FilledIsSound(entries: seq<CollectedEntry>, all: seq<CollectedSource>)
    requires entries != [] && Tidy(all) && AllSound(entries, all)
    ensures Sound(Filled(entries), all)
    decreases |entries|
  {
    hide Tidy, Sound, MergePair;
    assert entries[0] in entries;
    if |entries| > 1 {
      var init, last := entries[..|entries| - 1], entries[|entries| - 1];
      assert last in entries;
      FilledIsSound(init, all);
      PairIsSound(Filled(init), last, all);
    }
  }

  lemma {:induction false} FilledCons(x: CollectedEntry, entries: seq<CollectedEntry>, all: seq<CollectedSource>)
    requires entries != [] && Tidy(all) && Sound(x, all) && AllSound(entries, all)
    ensures Filled([x] + entries) == MergePair(x, Filled(entries))
    decreases |entries|
  {
    hide Tidy, Sound, MergePair;
    var init, last := entries[..|entries| - 1], entries[|entries| - 1];
    assert ([x] + entries)[..|entries|] == [x] + init;
    assert last in entries;
    if init == [] {
      assert [x] + init == [x];
    } else {
      FilledCons(x, init, all);
      FilledIsSound(init, all);
      PairsAssociate(x, Filled(init), last, all);
    }
  }

  // ---- The order a fold amounts to --------------------------------------------------------------

  predicate Above(a: CollectedEntry, b: CollectedEntry) {
    Higher(AuthorityOfEntry(a), AuthorityOfEntry(b))
  }

  /** A report goes to the front if it is above the one that stands there, and to the end if not. */
  function Order(entries: seq<CollectedEntry>): (r: seq<CollectedEntry>)
    ensures |r| == |entries|
  {
    if entries == [] then [] else
      var init, last := Order(entries[..|entries| - 1]), entries[|entries| - 1];
      Placed(init, last)
  }

  /** No two of the reports have the same authority. */
  ghost predicate Apart(entries: seq<CollectedEntry>) {
    forall i, j | 0 <= i < j < |entries| :: Above(entries[i], entries[j]) || Above(entries[j], entries[i])
  }

  /** Where the next report goes. */
  function Placed(order: seq<CollectedEntry>, last: CollectedEntry): seq<CollectedEntry> {
    if order != [] && Above(last, order[0]) then [last] + order else order + [last]
  }

  lemma OrderSnoc(entries: seq<CollectedEntry>, last: CollectedEntry)
    ensures Order(entries + [last]) == Placed(Order(entries), last)
  {
    hide Above;
    assert (entries + [last])[..|entries|] == entries;
  }

  lemma {:induction false} OrderMembers(entries: seq<CollectedEntry>)
    ensures forall e :: e in Order(entries) <==> e in entries
  {
    hide Above;
    if entries != [] {
      var init, last := entries[..|entries| - 1], entries[|entries| - 1];
      OrderMembers(init);
      assert forall e :: e in entries <==> e in init || e == last;
    }
  }

  lemma PairIsTied(a: CollectedEntry, b: CollectedEntry, first: CollectedEntry, all: seq<CollectedSource>)
    requires Tidy(all) && Sound(a, all) && Sound(b, all)
    requires Tied(AuthorityOfEntry(a), AuthorityOfEntry(first)) && Above(first, b)
    ensures MergeEntries(a, b) == MergePair(a, b) == MergeEntries(b, a)
    ensures Tied(AuthorityOfEntry(MergePair(a, b)), AuthorityOfEntry(first))
  {
    PairIsSound(a, b, all);
    hide Tidy, Sound, MergePair, AuthorityOf, MergeEntries;
    AuthoritiesAreOrdered(AuthorityOfEntry(a), AuthorityOfEntry(first), AuthorityOfEntry(b));
    PairInEitherOrder(a, b);
    AuthoritiesAreOrdered(AuthorityOfEntry(MergePair(a, b)), AuthorityOfEntry(a), AuthorityOfEntry(first));
  }

  /** One more report, in front of what is merged or behind it. */
  lemma FoldStep(folded: CollectedEntry, order: seq<CollectedEntry>, last: CollectedEntry, all: seq<CollectedSource>)
    requires order != [] && Tidy(all) && AllSound(order, all) && Sound(last, all)
    requires folded == Filled(order) && Tied(AuthorityOfEntry(folded), AuthorityOfEntry(order[0]))
    requires Above(order[0], last) || Above(last, order[0])
    ensures var next := Placed(order, last);
            && MergeEntries(folded, last) == Filled(next)
            && Tied(AuthorityOfEntry(MergeEntries(folded, last)), AuthorityOfEntry(next[0]))
  {
    hide Tidy, Sound, MergePair, MergeEntries, AuthorityOfEntry, CompareAuthority;
    FilledIsSound(order, all);
    if Above(last, order[0]) {
      StillAbove(AuthorityOfEntry(folded), AuthorityOfEntry(order[0]), AuthorityOfEntry(last));
      SelfTied(AuthorityOfEntry(last));
      PairIsTied(last, folded, last, all);
      FilledCons(last, order, all);
    } else {
      PairIsTied(folded, last, order[0], all);
      assert (order + [last])[..|order|] == order;
    }
  }

  /** Folding reports of distinct authority in any order is merging them in their `Order`, without a
      swap: definition, badges, prices and sources. */
  lemma {:induction false} FoldFollowsOrder(entries: seq<CollectedEntry>, all: seq<CollectedSource>)
    requires entries != [] && Apart(entries) && Tidy(all) && AllSound(entries, all)
    ensures Folded(entries) == Filled(Order(entries))
    ensures Tied(AuthorityOfEntry(Folded(entries)), AuthorityOfEntry(Order(entries)[0]))
    decreases |entries|
  {
    hide Tidy, Sound, MergePair, MergeEntries, AuthorityOfEntry, Higher, Tied;
    var init, last := entries[..|entries| - 1], entries[|entries| - 1];
    if init == [] {
      SelfTied(AuthorityOfEntry(last));
      assert entries == [last];
    } else {
      FoldFollowsOrder(init, all);
      OrderMembers(init);
      assert Order(init)[0] in init;
      FoldStep(Folded(init), Order(init), last, all);
    }
  }

  // ---- Which orders agree with the descending one -----------------------------------------------

  /** Every report is above all those before it, or below all of them. */
  ghost predicate Extreme(entries: seq<CollectedEntry>) {
    forall k | 0 <= k < |entries| :: TopOf(entries, k) || BottomOf(entries, k)
  }

  ghost predicate TopOf(entries: seq<CollectedEntry>, k: nat)
    requires k < |entries|
  {
    forall i | 0 <= i < k :: Above(entries[k], entries[i])
  }

  ghost predicate BottomOf(entries: seq<CollectedEntry>, k: nat)
    requires k < |entries|
  {
    forall i | 0 <= i < k :: Above(entries[i], entries[k])
  }

  lemma AboveIsOrder()
    ensures StrictOrder(Above)
  {
    hide AuthorityOfEntry, CompareAuthority;
    forall x ensures !Above(x, x) { NeverAboveItself(AuthorityOfEntry(x)); }
    forall x, y, z | Above(x, y) && Above(y, z) ensures Above(x, z) {
      AuthoritiesAreOrdered(AuthorityOfEntry(x), AuthorityOfEntry(y), AuthorityOfEntry(z));
    }
  }

  lemma DescendingIsUnique(a: seq<CollectedEntry>, b: seq<CollectedEntry>)
    requires Descending(a) && Descending(b) && forall e :: e in a <==> e in b
    ensures a == b
  {
    AboveIsOrder();
    assert Sorted(Above, a) && Sorted(Above, b) by { hide AuthorityOfEntry, CompareAuthority; }
    hide Above, Descending;
    SortedIsUnique(Above, a, b);
  }

  lemma ExtremeInit(entries: seq<CollectedEntry>)
    requires entries != []
    ensures var init := entries[..|entries| - 1];
            (Extreme(entries) ==> Extreme(init)) && (Apart(entries) ==> Apart(init))
  {
    hide Above;
    var init := entries[..|entries| - 1];
    if Extreme(entries) {
      forall k | 0 <= k < |init| ensures TopOf(init, k) || BottomOf(init, k) {
        assert TopOf(entries, k) || BottomOf(entries, k);
      }
    }
  }

  lemma {:induction false} ExtremeIsDescending(entries: seq<CollectedEntry>)
    requires Extreme(entries)
    ensures Descending(Order(entries))
  {
    hide AuthorityOfEntry, CompareAuthority;
    if entries != [] {
      var init, last := entries[..|entries| - 1], entries[|entries| - 1];
      ExtremeInit(entries);
      ExtremeIsDescending(init);
      OrderMembers(init);
      AboveIsOrder();
      assert TopOf(entries, |init|) || BottomOf(entries, |init|);
      LastFits(entries, Order(init));
    }
  }

  lemma LastFits(entries: seq<CollectedEntry>, order: seq<CollectedEntry>)
    requires entries != [] && Descending(order) && StrictOrder(Above)
    requires var init := entries[..|entries| - 1]; forall e :: e in order <==> e in init
    requires TopOf(entries, |entries| - 1) || BottomOf(entries, |entries| - 1)
    ensures var last := entries[|entries| - 1];
            Descending(Placed(order, last))
  {
    hide AuthorityOfEntry, CompareAuthority;
    var init, last := entries[..|entries| - 1], entries[|entries| - 1];
    if TopOf(entries, |init|) {
      forall e | e in order ensures Above(last, e) {
        var i :| 0 <= i < |init| && init[i] == e;
        assert entries[i] == e;
      }
      assert order != [] ==> order[0] in order;
      var next := [last] + order;
      forall i, j | 0 <= i < j < |next| ensures Above(next[i], next[j]) {
        assert next[j] == order[j - 1] && order[j - 1] in order;
      }
      assert Descending(next);
    } else {
      forall e | e in order ensures Above(e, last) {
        var i :| 0 <= i < |init| && init[i] == e;
        assert entries[i] == e;
      }
      assert order != [] ==> order[0] in order && !Above(last, order[0]);
      var next := order + [last];
      forall i, j | 0 <= i < j < |next| ensures Above(next[i], next[j]) {
        assert j == |order| ==> order[i] in order;
      }
      assert Descending(next);
    }
  }

  lemma DescendingIsExtreme(entries: seq<CollectedEntry>)
    requires Descending(entries)
    ensures Extreme(entries) && Apart(entries) && Order(entries) == entries
  {
    hide AuthorityOfEntry, CompareAuthority;
    forall k | 0 <= k < |entries| ensures BottomOf(entries, k) {}
    ExtremeIsDescending(entries);
    OrderMembers(entries);
    hide Descending, Extreme, Apart;
    DescendingIsUnique(Order(entries), entries);
  }

  // ---- Other contents ---------------------------------------------------------------------------

  /** Other contents for the same reports, prepared as collecting does. */
  ghost predicate Refills(f: CollectedEntry -> CollectedEntry, entries: seq<CollectedEntry>) {
    forall e | e in entries :: f(e).sources == e.sources && Prepared(f(e))
  }

  function Each(f: CollectedEntry -> CollectedEntry, entries: seq<CollectedEntry>): (r: seq<CollectedEntry>)
    ensures |r| == |entries| && forall i | 0 <= i < |r| :: r[i] == f(entries[i])
  {
    seq(|entries|, i requires 0 <= i < |entries| => f(entries[i]))
  }

  lemma SameAbove(f: CollectedEntry -> CollectedEntry, entries: seq<CollectedEntry>)
    requires Refills(f, entries)
    ensures forall x, y | x in entries && y in entries :: Above(f(x), f(y)) <==> Above(x, y)
  {
    hide AuthorityOf, CompareAuthority, Prepared;
  }

  lemma EachPlaced(f: CollectedEntry -> CollectedEntry, order: seq<CollectedEntry>, last: CollectedEntry)
    requires order != [] ==> (Above(f(last), f(order[0])) <==> Above(last, order[0]))
    ensures Each(f, Placed(order, last)) == Placed(Each(f, order), f(last))
  {
    hide Above, Each;
    EachSnoc(f, order, last);
    EachCons(f, order, last);
  }

  lemma EachOrderStep(f: CollectedEntry -> CollectedEntry, init: seq<CollectedEntry>, last: CollectedEntry)
    requires Order(Each(f, init)) == Each(f, Order(init))
    requires Order(init) != [] ==> (Above(f(last), f(Order(init)[0])) <==> Above(last, Order(init)[0]))
    ensures Order(Each(f, init + [last])) == Each(f, Order(init + [last]))
  {
    hide *;
    EachSnoc(f, init, last);
    OrderSnoc(init, last);
    OrderSnoc(Each(f, init), f(last));
    EachPlaced(f, Order(init), last);
  }

  lemma EachOfNone(f: CollectedEntry -> CollectedEntry)
    ensures Order(Each(f, [])) == Each(f, Order([])) == []
  {
  }

  lemma HeadsAgree(f: CollectedEntry -> CollectedEntry, entries: seq<CollectedEntry>)
    requires entries != [] && Refills(f, entries)
    ensures var init, last := entries[..|entries| - 1], entries[|entries| - 1];
            && Refills(f, init)
            && (Order(init) != [] ==> (Above(f(last), f(Order(init)[0])) <==> Above(last, Order(init)[0])))
  {
    var init, last := entries[..|entries| - 1], entries[|entries| - 1];
    SameAbove(f, entries);
    OrderMembers(init);
    hide Order, Above, Prepared;
    assert last in entries;
    assert forall e | e in init :: e in entries;
    if Order(init) != [] { assert Order(init)[0] in Order(init); }
  }

  lemma {:induction false} EachOrder(f: CollectedEntry -> CollectedEntry, entries: seq<CollectedEntry>)
    requires Refills(f, entries)
    ensures Order(Each(f, entries)) == Each(f, Order(entries))
  {
    hide *;
    if entries == [] {
      EachOfNone(f);
    } else {
      var init, last := entries[..|entries| - 1], entries[|entries| - 1];
      HeadsAgree(f, entries);
      EachOrder(f, init);
      EachOrderStep(f, init, last);
      assert entries == init + [last];
    }
  }

  lemma EachSnoc(f: CollectedEntry -> CollectedEntry, entries: seq<CollectedEntry>, last: CollectedEntry)
    ensures Each(f, entries + [last]) == Each(f, entries) + [f(last)]
  {
  }

  lemma EachCons(f: CollectedEntry -> CollectedEntry, entries: seq<CollectedEntry>, first: CollectedEntry)
    ensures Each(f, [first] + entries) == [f(first)] + Each(f, entries)
  {
  }

  lemma RefilledIsSound(f: CollectedEntry -> CollectedEntry, entries: seq<CollectedEntry>, all: seq<CollectedSource>)
    requires Refills(f, entries) && Tidy(all) && forall e, s | e in entries && s in e.sources :: s in all
    ensures AllSound(Each(f, entries), all)
  {
    hide Normalize, Canonical, NormalizeBadges, NormalizePricing, IsNormal, WellFormed, Coherent, KeyOf;
    forall e | e in entries ensures Sound(f(e), all) {
      NormalizedIsNormal(f(e).pricing);
      forall s | s in e.sources ensures Normalize(s) == Some(s) && Known(s, all) { assert s in all; }
    }
  }

  lemma EachApart(f: CollectedEntry -> CollectedEntry, entries: seq<CollectedEntry>)
    requires Apart(entries) && Refills(f, entries)
    ensures Apart(Each(f, entries))
  {
    SameAbove(f, entries);
    hide Above, Refills;
    var each := Each(f, entries);
    forall i, j | 0 <= i < j < |each| ensures Above(each[i], each[j]) || Above(each[j], each[i]) {
      assert entries[i] in entries && entries[j] in entries;
    }
  }

  lemma EachIsSome(f: CollectedEntry -> CollectedEntry, entries: seq<CollectedEntry>)
    requires entries != []
    ensures Each(f, entries) != []
  {
  }

  /** With other contents the fold still amounts to the same order. */
  lemma FoldOfRefilled(f: CollectedEntry -> CollectedEntry, entries: seq<CollectedEntry>, all: seq<CollectedSource>)
    requires entries != [] && Apart(entries) && Refills(f, entries) && Tidy(all)
    requires forall e, s | e in entries && s in e.sources :: s in all
    ensures Folded(Each(f, entries)) == Filled(Each(f, Order(entries)))
  {
    hide *;
    EachApart(f, entries);
    RefilledIsSound(f, entries, all);
    EachOrder(f, entries);
    EachIsSome(f, entries);
    FoldFollowsOrder(Each(f, entries), all);
  }

  // ---- Orders that go wrong ---------------------------------------------------------------------

  ghost predicate Precedes(s: seq<CollectedEntry>, x: CollectedEntry, y: CollectedEntry) {
    exists i :: 0 <= i < |s| && s[i] == x && y !in s[..i]
  }

  lemma {:induction false} HeadIsTop(entries: seq<CollectedEntry>)
    requires entries != [] && Apart(entries)
    ensures forall e | e in entries :: e == Order(entries)[0] || Above(Order(entries)[0], e)
  {
    hide AuthorityOfEntry, CompareAuthority, Above;
    AboveIsOrder();
    var init, last := entries[..|entries| - 1], entries[|entries| - 1];
    assert forall e :: e in entries <==> e in init || e == last;
    if init != [] {
      ExtremeInit(entries);
      HeadIsTop(init);
      OrderMembers(init);
      assert Order(init)[0] in init;
    }
  }

  lemma PlacedKeeps(order: seq<CollectedEntry>, last: CollectedEntry, x: CollectedEntry, y: CollectedEntry)
    requires Precedes(order, x, y) && last != y
    ensures Precedes(Placed(order, last), x, y)
  {
    hide Above;
    var i :| 0 <= i < |order| && order[i] == x && y !in order[..i];
    var next := Placed(order, last);
    if next == [last] + order {
      assert next[i + 1] == x && next[..i + 1] == [last] + order[..i];
    } else {
      assert next[i] == x && next[..i] == order[..i];
    }
  }

  lemma PlacedBehind(order: seq<CollectedEntry>, last: CollectedEntry, x: CollectedEntry)
    requires x in order && last !in order && !Above(last, order[0])
    ensures Precedes(Placed(order, last), x, last)
  {
    hide Above;
    var i :| 0 <= i < |order| && order[i] == x;
    var next := Placed(order, last);
    assert next[i] == x && next[..i] == order[..i];
  }

  lemma NotAbove(head: CollectedEntry, a: CollectedEntry, last: CollectedEntry)
    requires (head == a || Above(head, a)) && Above(a, last)
    ensures !Above(last, head)
  {
    AboveIsOrder();
    hide Above;
  }

  lemma MisplacedLast(init: seq<CollectedEntry>, last: CollectedEntry, a: CollectedEntry, b: CollectedEntry)
    requires Apart(init) && a in init && b in init && last !in init && Above(a, last)
    ensures Precedes(Order(init + [last]), b, last)
  {
    hide *;
    OrderMembers(init);
    OrderSnoc(init, last);
    HeadIsTop(init);
    NotAbove(Order(init)[0], a, last);
    PlacedBehind(Order(init), last, b);
  }

  /** A report that is neither above nor below all before it ends up behind one that is below it. */
  lemma {:induction false} Misplaced(entries: seq<CollectedEntry>, k: nat, a: nat, b: nat)
    requires Apart(entries) && a < k < |entries| && b < k
    requires Above(entries[a], entries[k]) && Above(entries[k], entries[b])
    ensures Precedes(Order(entries), entries[b], entries[k])
    decreases |entries|
  {
    hide *;
    var init, last := entries[..|entries| - 1], entries[|entries| - 1];
    assert entries == init + [last];
    ExtremeInit(entries);
    OtherIndex(entries, k);
    if k == |init| {
      assert init[a] in init && init[b] in init && last !in init;
      MisplacedLast(init, last, init[a], init[b]);
    } else {
      Misplaced(init, k, a, b);
      OrderSnoc(init, last);
      PlacedKeeps(Order(init), last, init[b], init[k]);
    }
  }

  lemma OtherIndex(entries: seq<CollectedEntry>, k: nat)
    requires Apart(entries) && k < |entries|
    ensures forall i | 0 <= i < |entries| && i != k :: entries[i] != entries[k]
  {
    AboveIsOrder();
    hide Above;
    forall i | 0 <= i < |entries| && i != k ensures entries[i] != entries[k] {
      assert if i < k then Above(entries[i], entries[k]) || Above(entries[k], entries[i])
             else Above(entries[k], entries[i]) || Above(entries[i], entries[k]);
    }
  }

  /** The size of the context that each of two reports names; the others name none. */
  function Contexts(x: CollectedEntry, y: CollectedEntry): CollectedEntry -> CollectedEntry {
    e => CollectedEntry(Some(WithContext(if e == x then 1000 else if e == y then 4000 else 0)), [], None, e.sources)
  }

  function WithContext(tokens: int): ModelVersion {
    ModelVersion("v", "m", "m", 1, [1], [], [1], [1], Some(ContextSpec(tokens, 0)), [], map[])
  }

  lemma ContextsRefill(x: CollectedEntry, y: CollectedEntry, entries: seq<CollectedEntry>)
    requires forall e | e in entries :: Prepared(e)
    ensures Refills(Contexts(x, y), entries)
  {
    NothingToNormalize();
    hide Canonical, NormalizeBadges;
  }

  lemma ContextsAre(x: CollectedEntry, y: CollectedEntry, e: CollectedEntry)
    ensures Number(Contexts(x, y)(e), ContextTokens) == if e == x then 1000 else if e == y then 4000 else 0
  {
  }

  /** Of the two reports, the one that is merged first shows. */
  lemma FirstShows(order: seq<CollectedEntry>, x: CollectedEntry, y: CollectedEntry)
    requires x != y && order != []
    ensures var shown := Number(Filled(Each(Contexts(x, y), order)), ContextTokens);
            && (Precedes(order, x, y) ==> shown == 1000)
            && (Precedes(order, y, x) ==> shown == 4000)
  {
    var each := Each(Contexts(x, y), order);
    forall e | e in each ensures IsNormal(e.pricing) {}
    FilledNumbers(each, ContextTokens);
    var values := Numbers(each, ContextTokens);
    forall i | 0 <= i < |values|
      ensures values[i] == if order[i] == x then 1000 else if order[i] == y then 4000 else 0
    {
      ContextsAre(x, y, order[i]);
    }
    hide Number, Filled, Contexts, Each;
    if Precedes(order, x, y) { FirstValue(order, values, x, y, 1000, Number(Filled(each), ContextTokens)); }
    if Precedes(order, y, x) { FirstValue(order, values, y, x, 4000, Number(Filled(each), ContextTokens)); }
  }

  lemma FirstValue(order: seq<CollectedEntry>, values: seq<int>, x: CollectedEntry, y: CollectedEntry, v: int,
            shown: int)
    requires |values| == |order| && v != 0 && Precedes(order, x, y) && IsFirst(values, 0, shown)
    requires forall i | 0 <= i < |order| :: (order[i] == x ==> values[i] == v)
                                            && (order[i] !in {x, y} ==> values[i] == 0)
    ensures shown == v
  {
    var p :| 0 <= p < |order| && order[p] == x && y !in order[..p];
    assert values[p] == v;
    var q :| 0 <= q < |values| && values[q] == shown != 0 && forall j | 0 <= j < q :: values[j] == 0;
    if q < p { assert order[..p][q] == order[q]; }
  }

  lemma DescendingPrecedes(entries: seq<CollectedEntry>, x: CollectedEntry, y: CollectedEntry)
    requires Descending(entries) && x in entries && Above(x, y)
    ensures Precedes(entries, x, y)
  {
    AboveIsOrder();
    hide AuthorityOfEntry, CompareAuthority;
    var i :| 0 <= i < |entries| && entries[i] == x;
    forall j | 0 <= j < i ensures entries[j] != y { assert Above(entries[j], x); }
  }

  /** What the theorem speaks of: reports that can be folded, no two of the same authority, and the same
      reports in descending order. */
  ghost predicate Arranged(entries: seq<CollectedEntry>, descending: seq<CollectedEntry>) {
    && Foldable(entries) && Apart(entries) && Descending(descending)
    && forall e :: e in entries <==> e in descending
  }

  /** The fold in this order and the descending fold. */
  ghost predicate FoldsAlike(f: CollectedEntry -> CollectedEntry, entries: seq<CollectedEntry>,
            descending: seq<CollectedEntry>)
    requires entries != [] && descending != []
  {
    Folded(Each(f, entries)) == Folded(Each(f, descending))
  }

  lemma ArrangedFolds(f: CollectedEntry -> CollectedEntry, entries: seq<CollectedEntry>,
            descending: seq<CollectedEntry>)
    requires Arranged(entries, descending) && Refills(f, entries)
    ensures descending != [] && Refills(f, descending)
    ensures Folded(Each(f, entries)) == Filled(Each(f, Order(entries)))
    ensures Folded(Each(f, descending)) == Filled(Each(f, descending))
  {
    var all := AllSources(entries);
    assert entries[0] in entries;
    assert descending != [] && Refills(f, descending) by { hide Prepared; }
    DescendingIsExtreme(descending);
    hide Above, Prepared, Tidy, Each, Folded, Filled, AllSources, Descending, Order;
    forall e, s | e in entries && s in e.sources ensures s in all { InAllSources(entries, s); }
    FoldOfRefilled(f, entries, all);
    FoldOfRefilled(f, descending, all);
  }

  /** Which orders leave every entry exactly as the descending order does, whatever the reports hold: those
      in which every report is above all those before it or below all of them. In any other order some
      contents come out with another number. */
  lemma OrderKeepsEntryIff(entries: seq<CollectedEntry>, descending: seq<CollectedEntry>)
    requires Arranged(entries, descending)
    ensures descending != []
    ensures Extreme(entries) <==> forall f | Refills(f, entries) :: FoldsAlike(f, entries, descending)
    ensures !Extreme(entries) ==> exists f ::
              && Refills(f, entries)
              && Number(Folded(Each(f, entries)), ContextTokens) != Number(Folded(Each(f, descending)), ContextTokens)
  {
    assert entries[0] in entries;
    hide *;
    if Extreme(entries) {
      ExtremeKeeps(entries, descending);
    } else {
      var f := OthersDiffer(entries, descending);
      assert !FoldsAlike(f, entries, descending);
    }
  }

  lemma ExtremeKeeps(entries: seq<CollectedEntry>, descending: seq<CollectedEntry>)
    requires Arranged(entries, descending) && Extreme(entries)
    ensures descending != [] && forall f | Refills(f, entries) :: FoldsAlike(f, entries, descending)
  {
    assert entries[0] in entries;
    ExtremeIsDescending(entries);
    OrderMembers(entries);
    hide Descending, Extreme, Order, Refills, Each, Folded, Filled;
    DescendingIsUnique(Order(entries), descending);
    forall f | Refills(f, entries) ensures FoldsAlike(f, entries, descending) {
      ArrangedFolds(f, entries, descending);
    }
  }

  lemma OthersDiffer(entries: seq<CollectedEntry>, descending: seq<CollectedEntry>)
    returns (f: CollectedEntry -> CollectedEntry)
    requires Arranged(entries, descending) && !Extreme(entries)
    ensures descending != [] && Refills(f, entries)
    ensures Number(Folded(Each(f, entries)), ContextTokens) != Number(Folded(Each(f, descending)), ContextTokens)
  {
    var k, a, b := InBetween(entries);
    var x, y := entries[b], entries[k];
    f := Contexts(x, y);
    ContextsRefill(x, y, entries);
    hide *;
    OtherIndex(entries, k);
    ArrangedFolds(f, entries, descending);
    Misplaced(entries, k, a, b);
    FirstShows(Order(entries), x, y);
    DescendingPrecedes(descending, y, x);
    FirstShows(descending, x, y);
  }

  lemma InBetween(entries: seq<CollectedEntry>) returns (k: nat, a: nat, b: nat)
    requires Apart(entries) && !Extreme(entries)
    ensures a < k < |entries| && b < k
    ensures Above(entries[a], entries[k]) && Above(entries[k], entries[b])
  {
    hide Above;
    k :| 0 <= k < |entries| && !TopOf(entries, k) && !BottomOf(entries, k);
    a :| 0 <= a < k && !Above(entries[k], entries[a]);
    b :| 0 <= b < k && !Above(entries[b], entries[k]);
  }
}
