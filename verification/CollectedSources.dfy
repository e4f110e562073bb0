/** The reports of one model by its sources: identity, authority, canonical list
    (source_model.go, source_authority.go, source_priority.go). */
module CollectedSources {
  import opened Text
  import opened Ordering
  import opened Slugs
  import opened EntryMerge
  import opened MergedFields

  type int32 = x: int | -0x8000_0000 <= x < 0x8000_0000

  /** Two's complement wrap-around of an int32 subtraction. */
  function Wrap32(x: int): int32 {
    (x + 0x8000_0000) % 0x1_0000_0000 - 0x8000_0000
  }

  datatype CollectedSource = CollectedSource(
    vendorID: string,
    modelID: string,
    sourceID: string,
    sourceModelID: string,
    displayName: string,
    isDirect: bool,
    kind: int,
    authorityPriority: int32,
    definition: Option<ModelVersion>,
    badges: seq<string>,
    pricing: Option<PricingSummary>)

  /** What `collectedSourceIdentityKey` joins with NUL bytes. */
  datatype Key = Key(vendorID: string, modelID: string, sourceID: string, sourceModelID: string, isDirect: bool)

  function KeyOf(s: CollectedSource): Key {
    Key(s.vendorID, s.modelID, s.sourceID, s.sourceModelID, s.isDirect)
  }

  function Clean(s: CollectedSource): CollectedSource {
    s.(vendorID := VendorSlug(s.vendorID), modelID := TrimSpace(s.modelID), sourceID := VendorSlug(s.sourceID),
       sourceModelID := TrimSpace(s.sourceModelID), displayName := TrimSpace(s.displayName),
       badges := NormalizeBadges(s.badges), pricing := NormalizePricing(s.pricing))
  }

  /** `NormalizeCollectedSource`: the cleaned source, unless it names no vendor, model or source. */
  function Normalize(s: CollectedSource): Option<CollectedSource> {
    var c := Clean(s);
    if c.vendorID == "" || c.modelID == "" || c.sourceID == "" then None else Some(c)
  }

  /** The key is taken from the source normalised once more. */
  function IdentityKey(s: CollectedSource): Option<Key> {
    match Normalize(s)
    case None => None
    case Some(once) =>
      match Normalize(once)
      case None => None
      case Some(twice) => Some(KeyOf(twice))
  }

  function MaxPriority(a: int32, b: int32): int32 {
    if b > a then b else a
  }

  /** `mergeCollectedSource`, for two normalised sources. */
  function MergeSource(primary: CollectedSource, fallback: CollectedSource): CollectedSource {
    primary.(sourceModelID := Or(primary.sourceModelID, fallback.sourceModelID, ""),
             definition := MergeDefinitions(primary.definition, fallback.definition),
             authorityPriority := MaxPriority(primary.authorityPriority, fallback.authorityPriority),
             badges := MergeBadges(primary.badges, fallback.badges),
             pricing := MergePricing(primary.pricing, fallback.pricing))
  }

  function MergeNormalized(primary: CollectedSource, fallback: CollectedSource): CollectedSource {
    match (Normalize(primary), Normalize(fallback))
    case (None, None) => fallback
    case (None, Some(f)) => f
    case (Some(p), None) => p
    case (Some(p), Some(f)) => MergeSource(p, f)
  }

  function AddSource(merged: map<Key, CollectedSource>, s: CollectedSource): map<Key, CollectedSource> {
    match IdentityKey(s)
    case None => merged
    case Some(k) =>
      var n := Normalize(s).value;
      merged[k := if k in merged then MergeNormalized(merged[k], n) else n]
  }

  /** The sources merged by key, in list order. */
  function Merged(sources: seq<CollectedSource>): map<Key, CollectedSource> {
    if sources == [] then map[] else AddSource(Merged(sources[..|sources| - 1]), sources[|sources| - 1])
  }

  // ---- The order of sources -------------------------------------------------------------------

  datatype Rank = Rank(isDirect: bool, priority: int, sourceID: string, vendorID: string, modelID: string,
                       sourceModelID: string)

  function RankOf(k: Key, priority: int): Rank {
    Rank(k.isDirect, priority, k.sourceID, k.vendorID, k.modelID, k.sourceModelID)
  }

  function RankKey(r: Rank): Key {
    Key(r.vendorID, r.modelID, r.sourceID, r.sourceModelID, r.isDirect)
  }

  /** Direct sources first, then higher priority, then by the identifiers. */
  predicate RankLess(a: Rank, b: Rank) {
    if a.isDirect != b.isDirect then a.isDirect
    else if a.priority != b.priority then a.priority > b.priority
    else if a.sourceID != b.sourceID then Less(a.sourceID, b.sourceID)
    else if a.vendorID != b.vendorID then Less(a.vendorID, b.vendorID)
    else if a.modelID != b.modelID then Less(a.modelID, b.modelID)
    else Less(a.sourceModelID, b.sourceModelID)
  }

  lemma RanksAreOrdered()
    ensures StrictTotal(RankLess)
  {
    StringsAreOrdered();
    hide Less;
    forall a, b, c | RankLess(a, b) && RankLess(b, c) ensures RankLess(a, c) {}
    forall a, b | a != b ensures RankLess(a, b) || RankLess(b, a) {}
  }

  function CompareText(a: string, b: string): int {
    if Less(a, b) then -1 else if a == b then 0 else 1
  }

  /** `CompareCollectedSource`; the priorities are subtracted in 32 bits. */
  function CompareSources(left: CollectedSource, right: CollectedSource): int {
    if left.isDirect != right.isDirect then (if left.isDirect then -1 else 1)
    else if left.authorityPriority != right.authorityPriority
         then Wrap32(right.authorityPriority - left.authorityPriority)
    else if left.sourceID != right.sourceID then CompareText(left.sourceID, right.sourceID)
    else if left.vendorID != right.vendorID then CompareText(left.vendorID, right.vendorID)
    else if left.modelID != right.modelID then CompareText(left.modelID, right.modelID)
    else CompareText(left.sourceModelID, right.sourceModelID)
  }

  predicate Fits(a: int32, b: int32) {
    -0x8000_0000 <= a - b < 0x8000_0000
  }

  /** The comparison puts the higher priority first exactly when the difference fits. */
  lemma HigherPriorityFirstIff(left: CollectedSource, right: CollectedSource)
    requires left.isDirect == right.isDirect && left.authorityPriority != right.authorityPriority
    ensures (CompareSources(left, right) < 0 <==> left.authorityPriority > right.authorityPriority)
            <==> Fits(right.authorityPriority, left.authorityPriority)
  {
  }

  /** An input that shows it: the highest priority there is sorts behind the priority -2. */
  lemma HighestPriorityComesLast(s: CollectedSource)
    ensures var high, low := s.(authorityPriority := 0x7FFF_FFFF), s.(authorityPriority := -2);
            CompareSources(high, low) > 0 && CompareSources(low, high) < 0
  {
  }

  lemma CompareIsRankLess(left: CollectedSource, right: CollectedSource)
    requires Fits(right.authorityPriority, left.authorityPriority)
    ensures CompareSources(left, right) < 0
            <==> RankLess(RankOf(KeyOf(left), left.authorityPriority), RankOf(KeyOf(right), right.authorityPriority))
  {
    StringsAreOrdered();
  }

  /** Where differences fit, the comparison is a strict total order: it is antisymmetric and
      transitive, and it is zero only between sources of one key and one priority. */
  lemma ComparisonIsStrictTotal(a: CollectedSource, b: CollectedSource, c: CollectedSource)
    requires Fits(a.authorityPriority, b.authorityPriority) && Fits(b.authorityPriority, a.authorityPriority)
    requires Fits(b.authorityPriority, c.authorityPriority) && Fits(c.authorityPriority, b.authorityPriority)
    requires Fits(a.authorityPriority, c.authorityPriority) && Fits(c.authorityPriority, a.authorityPriority)
    ensures CompareSources(a, b) > 0 <==> CompareSources(b, a) < 0
    ensures CompareSources(a, b) == 0 <==> KeyOf(a) == KeyOf(b) && a.authorityPriority == b.authorityPriority
    ensures CompareSources(a, b) < 0 && CompareSources(b, c) < 0 ==> CompareSources(a, c) < 0
  {
    hide CompareSources, RankLess, RankOf, KeyOf;
    CompareIsRankLess(a, b);
    CompareIsRankLess(b, a);
    CompareIsRankLess(b, c);
    CompareIsRankLess(a, c);
    ComparesEqual(a, b);
    ComparesEqual(b, a);
    hide Fits;
    RanksAreTotal(RankOf(KeyOf(a), a.authorityPriority), RankOf(KeyOf(b), b.authorityPriority),
                  RankOf(KeyOf(c), c.authorityPriority));
    SameRank(KeyOf(a), a.authorityPriority, KeyOf(b), b.authorityPriority);
  }

  lemma RanksAreTotal(a: Rank, b: Rank, c: Rank)
    ensures !(RankLess(a, b) && RankLess(b, a)) && (a == b || RankLess(a, b) || RankLess(b, a)) && !RankLess(a, a)
    ensures RankLess(a, b) && RankLess(b, c) ==> RankLess(a, c)
  {
    RanksAreOrdered();
    hide RankLess;
  }

  lemma SameRank(k: Key, p: int, l: Key, q: int)
    ensures RankOf(k, p) == RankOf(l, q) <==> k == l && p == q
  {
  }

  lemma ComparesEqual(a: CollectedSource, b: CollectedSource)
    requires Fits(b.authorityPriority, a.authorityPriority)
    ensures CompareSources(a, b) == 0 <==> KeyOf(a) == KeyOf(b) && a.authorityPriority == b.authorityPriority
  {
    StringsAreOrdered();
  }

  ghost function Ranks(m: map<Key, CollectedSource>): set<Rank> {
    set k | k in m :: RankOf(k, m[k].authorityPriority)
  }

  /** The keys of the merged sources in their canonical order. */
  ghost function SortedRanks(m: map<Key, CollectedSource>): seq<Rank> {
    RanksAreOrdered();
    Enumerate(RankLess, Ranks(m))
  }

  ghost function InRankOrder(m: map<Key, CollectedSource>, ranks: seq<Rank>): (r: seq<CollectedSource>)
    requires forall i | 0 <= i < |ranks| :: RankKey(ranks[i]) in m
    ensures |r| == |ranks|
  {
    seq(|ranks|, i requires 0 <= i < |ranks| => m[RankKey(ranks[i])])
  }

  lemma RankKeysKnown(m: map<Key, CollectedSource>)
    ensures forall i | 0 <= i < |SortedRanks(m)| :: RankKey(SortedRanks(m)[i]) in m
  {
    var ranks := SortedRanks(m);
    forall i | 0 <= i < |ranks| ensures RankKey(ranks[i]) in m {
      assert ranks[i] in Ranks(m);
    }
  }

  /** `NormalizeCollectedSources`: the merged sources in canonical order. */
  ghost function Canonical(sources: seq<CollectedSource>): seq<CollectedSource> {
    var m := Merged(sources);
    RankKeysKnown(m);
    InRankOrder(m, SortedRanks(m))
  }

  // ---- The loop -------------------------------------------------------------------------------

  /** Identifiers on which the slug normaliser is a projection. */
  predicate StableIDs(s: CollectedSource) {
    Stable(Vendor, s.vendorID) && Stable(Vendor, s.sourceID)
  }

  ghost predicate WellFormed(sources: seq<CollectedSource>) {
    && (forall s | s in sources :: StableIDs(s))
    && (forall s, t | s in sources && t in sources :: Fits(s.authorityPriority, t.authorityPriority))
  }

  /** A source is usable exactly if it names a vendor, a model and a source. Normalised, these are slugs or
      trimmed, as are its own model id, its name and its prices; of the badges the known ones stay, and the
      rest is as reported. */
  lemma NormalizedSource(s: CollectedSource)
    ensures var n := Normalize(s);
            && (n.Some? <==> VendorSlug(s.vendorID) != "" && !Blank(s.modelID) && VendorSlug(s.sourceID) != "")
            && (n.Some? ==>
                  && n.value.vendorID == VendorSlug(s.vendorID) && n.value.modelID == TrimSpace(s.modelID)
                  && n.value.sourceID == VendorSlug(s.sourceID) && n.value.sourceModelID == TrimSpace(s.sourceModelID)
                  && n.value.displayName == TrimSpace(s.displayName) && n.value.isDirect == s.isDirect
                  && n.value.kind == s.kind && n.value.authorityPriority == s.authorityPriority
                  && n.value.definition == s.definition
                  && (forall b :: b in n.value.badges <==> IsBadgeOf(s.badges, b))
                  && (forall field :: Price(n.value.pricing, field) == Said(s.pricing, field))
                  && PriceType(n.value.pricing) == SaidType(s.pricing))
  {
    NormalizedBadges(s.badges);
    NormalizedSays(s.pricing, Input);
    hide IsBadgeOf, NormalizeBadges, NormalizePricing, Usable, Said, SaidType, VendorSlug, TrimSpace;
    forall field ensures Price(NormalizePricing(s.pricing), field) == Said(s.pricing, field) {
      NormalizedSays(s.pricing, field);
    }
  }

  /** Merged sources are clean and stored under their own key, and no priority is new. */
  ghost predicate Keyed(m: map<Key, CollectedSource>) {
    forall k | k in m :: KeyOf(m[k]) == k && Normalize(m[k]) == Some(m[k])
  }

  lemma CleanTwice(s: CollectedSource)
    requires StableIDs(s) && Normalize(s).Some?
    ensures Normalize(Normalize(s).value) == Normalize(s)
    ensures IdentityKey(s) == Some(KeyOf(Normalize(s).value))
  {
    VendorSlugIdempotentIff(s.vendorID);
    VendorSlugIdempotentIff(s.sourceID);
    hide VendorSlug, Stable;
    TrimTwice(s.modelID);
    TrimTwice(s.sourceModelID);
    TrimTwice(s.displayName);
    NormalizeBadgesTwice(s.badges);
    NormalizedIsNormal(s.pricing);
  }

  lemma MergeSourceIsClean(p: CollectedSource, f: CollectedSource)
    requires Normalize(p) == Some(p) && Normalize(f) == Some(f) && KeyOf(p) == KeyOf(f)
    ensures var m := MergeSource(p, f); KeyOf(m) == KeyOf(p) && Normalize(m) == Some(m)
  {
    NormalizeBadgesTwice(p.badges + f.badges);
    MergedIsNormal(p.pricing, f.pricing);
  }

  lemma SourceFacts(s: CollectedSource)
    requires StableIDs(s) && IdentityKey(s).Some?
    ensures Normalize(s).Some?
    ensures var n := Normalize(s).value;
            Normalize(n) == Some(n) && IdentityKey(s) == Some(KeyOf(n)) && n.authorityPriority == s.authorityPriority
  {
    assert Normalize(s).Some?;
    CleanTwice(s);
  }

  lemma MergeNormalizedFacts(p: CollectedSource, f: CollectedSource)
    requires Normalize(p) == Some(p) && Normalize(f) == Some(f) && KeyOf(p) == KeyOf(f)
    ensures var m := MergeNormalized(p, f);
            && m == MergeSource(p, f) && KeyOf(m) == KeyOf(p) && Normalize(m) == Some(m)
            && m.authorityPriority == MaxPriority(p.authorityPriority, f.authorityPriority)
  {
    MergeSourceIsClean(p, f);
    hide Normalize;
  }

  /** One step of the merge loop: at most the source's own key changes. */
  lemma AddSourceStep(m: map<Key, CollectedSource>, s: CollectedSource)
    requires Keyed(m) && StableIDs(s)
    ensures var after := AddSource(m, s);
            match IdentityKey(s)
            case None => after == m
            case Some(k) =>
              && after.Keys == m.Keys + {k}
              && (forall x | x in m && x != k :: after[x] == m[x])
              && KeyOf(after[k]) == k && Normalize(after[k]) == Some(after[k])
              && after[k].authorityPriority
                 == if k in m then MaxPriority(m[k].authorityPriority, s.authorityPriority) else s.authorityPriority
  {
    hide Normalize, StableIDs, IdentityKey, MergeNormalized, MaxPriority;
    if IdentityKey(s).Some? {
      SourceFacts(s);
      var k := IdentityKey(s).value;
      if k in m { MergeNormalizedFacts(m[k], Normalize(s).value); }
    }
  }

  lemma {:induction false} MergedIsKeyed(sources: seq<CollectedSource>)
    requires forall s | s in sources :: StableIDs(s)
    ensures Keyed(Merged(sources))
    ensures forall k :: k in Merged(sources) <==> exists s :: s in sources && IdentityKey(s) == Some(k)
    decreases |sources|
  {
    hide StableIDs, Normalize, IdentityKey, AddSource;
    if sources != [] {
      var init, s := sources[..|sources| - 1], sources[|sources| - 1];
      assert forall t :: t in sources <==> t in init || t == s;
      MergedIsKeyed(init);
      AddSourceStep(Merged(init), s);
    }
  }

  /** The priority kept for a key is the highest one reported for it. */
  ghost predicate IsTopPriority(sources: seq<CollectedSource>, k: Key, p: int) {
    && (exists s :: s in sources && IdentityKey(s) == Some(k) && s.authorityPriority == p)
    && (forall s | s in sources && IdentityKey(s) == Some(k) :: s.authorityPriority <= p)
  }

  lemma {:induction false} MergedPriority(sources: seq<CollectedSource>, k: Key)
    requires forall s | s in sources :: StableIDs(s)
    requires k in Merged(sources)
    ensures IsTopPriority(sources, k, Merged(sources)[k].authorityPriority)
    decreases |sources|
  {
    hide StableIDs, Normalize, IdentityKey, AddSource;
    var init, s := sources[..|sources| - 1], sources[|sources| - 1];
    assert forall t :: t in sources <==> t in init || t == s;
    MergedIsKeyed(init);
    AddSourceStep(Merged(init), s);
    if k in Merged(init) { MergedPriority(init, k); }
  }

  ghost function KeyRanks(m: map<Key, CollectedSource>, keys: seq<Key>): (r: seq<Rank>)
    requires forall x | x in keys :: x in m
    ensures |r| == |keys| && forall i | 0 <= i < |r| :: r[i] == RankOf(keys[i], m[keys[i]].authorityPriority)
  {
    seq(|keys|, i requires 0 <= i < |keys| => RankOf(keys[i], m[keys[i]].authorityPriority))
  }

  ghost predicate Comparable(m: map<Key, CollectedSource>) {
    Keyed(m) && forall k, l | k in m && l in m :: Fits(m[k].authorityPriority, m[l].authorityPriority)
  }

  /** Before which key `k` belongs: the first one whose source compares greater. */
  method Position(m: map<Key, CollectedSource>, k: Key, keys: seq<Key>) returns (i: nat)
    requires k in m && forall x | x in keys :: x in m
    ensures i <= |keys|
    ensures forall j | 0 <= j < i :: !(CompareSources(m[k], m[keys[j]]) < 0)
    ensures i < |keys| ==> CompareSources(m[k], m[keys[i]]) < 0
  {
    i := 0;
    while i < |keys| && !(CompareSources(m[k], m[keys[i]]) < 0)
      invariant i <= |keys|
      invariant forall j | 0 <= j < i :: !(CompareSources(m[k], m[keys[j]]) < 0)
    {
      i := i + 1;
    }
  }

  function InsertAt<T>(x: T, s: seq<T>, i: nat): (r: seq<T>)
    requires i <= |s|
    ensures |r| == |s| + 1
    ensures forall a | 0 <= a < |r| :: r[a] == if a < i then s[a] else if a == i then x else s[a - 1]
  {
    s[..i] + [x] + s[i..]
  }

  lemma InsertAtMembers<T(!new)>(x: T, s: seq<T>, i: nat)
    requires i <= |s|
    ensures forall y :: y in InsertAt(x, s, i) <==> y == x || y in s
    ensures Distinct(s) && x !in s ==> Distinct(InsertAt(x, s, i))
  {
    var r := InsertAt(x, s, i);
    forall y | y in s ensures y in r {
      var a :| 0 <= a < |s| && s[a] == y;
      assert r[if a < i then a else a + 1] == y;
    }
    assert r[i] == x;
  }

  /** Sorts the keys of the merged sources by comparing the sources. */
  method SortKeys(m: map<Key, CollectedSource>) returns (keys: seq<Key>)
    ensures forall k :: k in keys <==> k in m
    ensures Distinct(keys)
    ensures Comparable(m) ==> KeyRanks(m, keys) == SortedRanks(m)
  {
    keys := [];
    var rest := m.Keys;
    NoRanks(m);
    hide RankLess, CompareSources, Comparable, KeyRanks, Sorted, SortedRanks;
    while rest != {}
      invariant rest <= m.Keys
      invariant forall k :: k in keys <==> k in m && k !in rest
      invariant Distinct(keys)
      invariant Comparable(m) ==> Sorted(RankLess, KeyRanks(m, keys))
      decreases |rest|
    {
      var k :| k in rest;
      var i := Position(m, k, keys);
      InsertAtMembers(k, keys, i);
      if Comparable(m) { InsertedInOrder(m, k, keys, i); }
      keys := InsertAt(k, keys, i);
      rest := rest - {k};
    }
    if Comparable(m) { SortedKeysAreRanks(m, keys); }
  }

  lemma NoRanks(m: map<Key, CollectedSource>)
    ensures Sorted(RankLess, KeyRanks(m, []))
  {
  }

  lemma InsertedInOrder(m: map<Key, CollectedSource>, k: Key, keys: seq<Key>, i: nat)
    requires k in m && (forall x | x in keys :: x in m) && Distinct(keys) && k !in keys && i <= |keys|
    requires forall j | 0 <= j < i :: !(CompareSources(m[k], m[keys[j]]) < 0)
    requires i < |keys| ==> CompareSources(m[k], m[keys[i]]) < 0
    requires Comparable(m) && Sorted(RankLess, KeyRanks(m, keys))
    ensures (forall x | x in InsertAt(k, keys, i) :: x in m) && Sorted(RankLess, KeyRanks(m, InsertAt(k, keys, i)))
  {
    hide *;
    var was, x := KeyRanks(m, keys), RankOf(k, m[k].authorityPriority);
    InsertAtMembers(k, keys, i);
    forall j | 0 <= j < |keys| ensures (CompareSources(m[k], m[keys[j]]) < 0 <==> RankLess(x, was[j])) && was[j] != x {
      assert keys[j] in keys;
      CompareKeys(m, k, keys[j]);
    }
    RanksAreOrdered();
    InsertSorted(RankLess, x, was, i);
    RanksOfInsert(m, k, keys, i);
  }

  lemma RanksOfInsert(m: map<Key, CollectedSource>, k: Key, keys: seq<Key>, i: nat)
    requires k in m && (forall x | x in keys :: x in m) && i <= |keys|
    ensures forall x | x in InsertAt(k, keys, i) :: x in m
    ensures KeyRanks(m, InsertAt(k, keys, i)) == InsertAt(RankOf(k, m[k].authorityPriority), KeyRanks(m, keys), i)
  {
    InsertAtMembers(k, keys, i);
    hide KeyRanks, InsertAt, RankOf;
    var r := InsertAt(k, keys, i);
    assert |KeyRanks(m, r)| == |r|;
    forall a | 0 <= a < |r|
      ensures KeyRanks(m, r)[a] == InsertAt(RankOf(k, m[k].authorityPriority), KeyRanks(m, keys), i)[a] {
    }
  }

  lemma CompareKeys(m: map<Key, CollectedSource>, k: Key, l: Key)
    requires Comparable(m) && k in m && l in m && k != l
    ensures var x, y := RankOf(k, m[k].authorityPriority), RankOf(l, m[l].authorityPriority);
            x != y && (CompareSources(m[k], m[l]) < 0 <==> RankLess(x, y))
  {
    hide Normalize, CompareSources, RankLess;
    assert KeyOf(m[k]) == k && KeyOf(m[l]) == l;
    CompareIsRankLess(m[k], m[l]);
    assert RankKey(RankOf(k, m[k].authorityPriority)) == k && RankKey(RankOf(l, m[l].authorityPriority)) == l;
  }

  lemma InsertSorted<T(!new)>(lt: (T, T) -> bool, x: T, s: seq<T>, i: nat)
    requires StrictTotal(lt) && Sorted(lt, s) && x !in s && i <= |s|
    requires forall j | 0 <= j < i :: !lt(x, s[j])
    requires i < |s| ==> lt(x, s[i])
    ensures Sorted(lt, InsertAt(x, s, i))
  {
    var r := InsertAt(x, s, i);
    forall j | 0 <= j < i ensures lt(s[j], x) { assert s[j] in s; }
    forall j | i <= j < |s| ensures lt(x, s[j]) { assert j == i || lt(s[i], s[j]); }
    forall a, b | 0 <= a < b < |r| ensures lt(r[a], r[b]) {}
  }

  lemma KeyRanksAre(m: map<Key, CollectedSource>, keys: seq<Key>)
    requires forall k :: k in keys <==> k in m
    ensures forall r :: r in KeyRanks(m, keys) <==> r in Ranks(m)
  {
    hide RankOf;
    var ranks := KeyRanks(m, keys);
    forall k | k in m ensures RankOf(k, m[k].authorityPriority) in ranks {
      var i :| 0 <= i < |keys| && keys[i] == k;
      assert ranks[i] == RankOf(k, m[k].authorityPriority);
    }
    forall i | 0 <= i < |ranks| ensures ranks[i] in Ranks(m) { assert keys[i] in m; }
  }

  lemma SortedKeysAreRanks(m: map<Key, CollectedSource>, keys: seq<Key>)
    requires forall k :: k in keys <==> k in m
    requires Sorted(RankLess, KeyRanks(m, keys))
    ensures KeyRanks(m, keys) == SortedRanks(m)
  {
    RanksAreOrdered();
    KeyRanksAre(m, keys);
    hide RankLess, Ranks, KeyRanks;
    SortedIsUnique(RankLess, KeyRanks(m, keys), SortedRanks(m));
  }

  lemma KeyNeedsNormal(s: CollectedSource)
    ensures IdentityKey(s).Some? ==> Normalize(s).Some?
  {
  }

  method MergeCollectedSource(primary: CollectedSource, fallback: CollectedSource) returns (merged: CollectedSource)
    ensures merged == MergeNormalized(primary, fallback)
  {
    hide Normalize, NormalizeBadges, MergePricing;
    var p, f := Normalize(primary), Normalize(fallback);
    if f.None? { return if p.None? then fallback else p.value; }
    var source := f.value;
    if p.None? { return source; }
    merged := p.value;
    if merged.sourceModelID == "" { merged := merged.(sourceModelID := source.sourceModelID); }
    var definition := MergeDefinitionMetadata(merged.definition, source.definition);
    merged := merged.(definition := definition);
    if source.authorityPriority > merged.authorityPriority {
      merged := merged.(authorityPriority := source.authorityPriority);
    }
    var badges := NormalizeDefinitionSourceBadges(merged.badges + source.badges);
    merged := merged.(badges := badges);
    var pricing := MergePricingSummary(merged.pricing, source.pricing);
    merged := merged.(pricing := pricing);
  }

  method MergeAll(sources: seq<CollectedSource>) returns (merged: map<Key, CollectedSource>)
    ensures merged == Merged(sources)
  {
    hide Normalize, IdentityKey, MergeNormalized;
    merged := map[];
    for i := 0 to |sources|
      invariant merged == Merged(sources[..i])
    {
      assert sources[..i + 1][..i] == sources[..i];
      KeyNeedsNormal(sources[i]);
      var source, key := Normalize(sources[i]), IdentityKey(sources[i]);
      if key.Some? {
        if key.value in merged {
          var both := MergeCollectedSource(merged[key.value], source.value);
          merged := merged[key.value := both];
        } else {
          merged := merged[key.value := source.value];
        }
      }
    }
    assert sources[..|sources|] == sources;
  }

  /** One source per key, each the merge of its reports; in canonical order when identifiers
      are stable and priority differences fit 32 bits. */
  method NormalizeCollectedSources(sources: seq<CollectedSource>) returns (out: seq<CollectedSource>)
    ensures |out| == |Merged(sources)|
    ensures forall s :: s in out <==> exists k :: k in Merged(sources) && Merged(sources)[k] == s
    ensures WellFormed(sources) ==> out == Canonical(sources)
  {
    var merged := MergeAll(sources);
    var keys := SortKeys(merged);
    out := Lookup(merged, keys);
    DistinctCount(keys, merged.Keys);
    LookupMembers(merged, keys);
    if WellFormed(sources) {
      WellFormedIsComparable(sources);
      LookupIsInRankOrder(merged, keys);
    }
  }

  function Lookup(m: map<Key, CollectedSource>, keys: seq<Key>): (r: seq<CollectedSource>)
    requires forall k | k in keys :: k in m
    ensures |r| == |keys| && forall i | 0 <= i < |r| :: r[i] == m[keys[i]]
  {
    seq(|keys|, i requires 0 <= i < |keys| => m[keys[i]])
  }

  lemma LookupMembers(m: map<Key, CollectedSource>, keys: seq<Key>)
    requires forall k :: k in keys <==> k in m
    ensures forall s :: s in Lookup(m, keys) <==> exists k :: k in m && m[k] == s
  {
    var out := Lookup(m, keys);
    forall k | k in m ensures m[k] in out {
      var i :| 0 <= i < |keys| && keys[i] == k;
      assert out[i] == m[k];
    }
    forall s | s in out ensures exists k :: k in m && m[k] == s {
      var i :| 0 <= i < |out| && out[i] == s;
      assert keys[i] in keys;
    }
  }

  lemma LookupIsInRankOrder(m: map<Key, CollectedSource>, keys: seq<Key>)
    requires forall k :: k in keys <==> k in m
    requires KeyRanks(m, keys) == SortedRanks(m)
    ensures (forall i | 0 <= i < |SortedRanks(m)| :: RankKey(SortedRanks(m)[i]) in m)
    ensures InRankOrder(m, SortedRanks(m)) == Lookup(m, keys)
  {
    RankKeysKnown(m);
    hide SortedRanks;
    var ranks := SortedRanks(m);
    forall i | 0 <= i < |keys| ensures RankKey(ranks[i]) == keys[i] {
      assert KeyRanks(m, keys)[i] == ranks[i];
    }
  }

  lemma {:induction false} DistinctCount<T(!new)>(s: seq<T>, elements: set<T>)
    requires Distinct(s) && forall x :: x in s <==> x in elements
    ensures |s| == |elements|
    decreases |s|
  {
    if s == [] {
      assert elements == {};
    } else {
      var last := s[|s| - 1];
      var init := s[..|s| - 1];
      assert s == init + [last];
      assert last in s && last !in init;
      forall x ensures x in init <==> x in elements - {last} {}
      DistinctCount(init, elements - {last});
    }
  }

  lemma WellFormedIsComparable(sources: seq<CollectedSource>)
    requires WellFormed(sources)
    ensures Comparable(Merged(sources))
  {
    MergedIsKeyed(sources);
    var m := Merged(sources);
    forall k, l | k in m && l in m ensures Fits(m[k].authorityPriority, m[l].authorityPriority) {
      MergedPriority(sources, k);
      MergedPriority(sources, l);
    }
  }

  // ---- The canonical form -----------------------------------------------------------------------

  /** The canonical list, read through its ranks. */
  ghost predicate Ranked(m: map<Key, CollectedSource>, ranks: seq<Rank>, out: seq<CollectedSource>) {
    && |out| == |ranks|
    && forall i | 0 <= i < |out| :: (ranks[i] == RankOf(KeyOf(out[i]), out[i].authorityPriority)
                                     && KeyOf(out[i]) in m && out[i] == m[KeyOf(out[i])])
  }

  lemma RankedByKey(m: map<Key, CollectedSource>)
    requires forall k | k in m :: KeyOf(m[k]) == k
    ensures forall i | 0 <= i < |SortedRanks(m)| :: RankKey(SortedRanks(m)[i]) in m
    ensures Ranked(m, SortedRanks(m), InRankOrder(m, SortedRanks(m)))
  {
    RankKeysKnown(m);
    var ranks := SortedRanks(m);
    hide KeyOf;
    forall i | 0 <= i < |ranks| ensures ranks[i] == RankOf(RankKey(ranks[i]), m[RankKey(ranks[i])].authorityPriority) {
      assert ranks[i] in Ranks(m);
    }
  }

  lemma CanonicalRanks(sources: seq<CollectedSource>)
    requires forall s | s in sources :: StableIDs(s)
    ensures Ranked(Merged(sources), SortedRanks(Merged(sources)), Canonical(sources))
  {
    MergedIsKeyed(sources);
    hide Merged, StableIDs, Normalize, IdentityKey;
    RankedByKey(Merged(sources));
  }

  lemma RankedKeys(m: map<Key, CollectedSource>, out: seq<CollectedSource>, k: Key)
    requires Ranked(m, SortedRanks(m), out) && k in m
    ensures HasKey(out, k)
  {
    var ranks := SortedRanks(m);
    var r := RankOf(k, m[k].authorityPriority);
    hide KeyOf;
    assert r in Ranks(m);
    var i :| 0 <= i < |ranks| && ranks[i] == r;
    assert RankKey(r) == k && RankKey(ranks[i]) == KeyOf(out[i]);
  }

  ghost predicate HasKey(s: seq<CollectedSource>, k: Key) {
    exists i | 0 <= i < |s| :: KeyOf(s[i]) == k
  }

  lemma CanonicalKeys(sources: seq<CollectedSource>)
    requires forall s | s in sources :: StableIDs(s)
    ensures forall k :: k in Merged(sources) <==> HasKey(Canonical(sources), k)
  {
    CanonicalRanks(sources);
    hide Merged, StableIDs, Canonical, SortedRanks;
    forall k | k in Merged(sources) ensures HasKey(Canonical(sources), k) {
      RankedKeys(Merged(sources), Canonical(sources), k);
    }
  }

  lemma CanonicalIsSorted(m: map<Key, CollectedSource>, out: seq<CollectedSource>, i: nat, j: nat)
    requires Comparable(m) && Ranked(m, SortedRanks(m), out) && i < j < |out|
    ensures CompareSources(out[i], out[j]) < 0 && KeyOf(out[i]) != KeyOf(out[j])
  {
    hide RankLess, CompareSources, KeyOf, StrictTotal, Normalize;
    RanksAreOrdered();
    var ranks := SortedRanks(m);
    assert RankLess(ranks[i], ranks[j]);
    CompareIsRankLess(out[i], out[j]);
    LessIsUnequal(ranks[i], ranks[j]);
  }

  lemma LessIsUnequal(a: Rank, b: Rank)
    requires RankLess(a, b)
    ensures a != b
  {
    RanksAreOrdered();
  }

  ghost predicate StrictlySorted(s: seq<CollectedSource>) {
    forall i, j | 0 <= i < j < |s| :: CompareSources(s[i], s[j]) < 0 && KeyOf(s[i]) != KeyOf(s[j])
  }

  lemma RankedIsSorted(m: map<Key, CollectedSource>, out: seq<CollectedSource>)
    requires Comparable(m) && Ranked(m, SortedRanks(m), out)
    ensures StrictlySorted(out)
  {
    hide Comparable, Ranked, CompareSources, KeyOf, SortedRanks;
    forall i, j | 0 <= i < j < |out| ensures CompareSources(out[i], out[j]) < 0 && KeyOf(out[i]) != KeyOf(out[j]) {
      CanonicalIsSorted(m, out, i, j);
    }
  }

  lemma RankedIsClean(m: map<Key, CollectedSource>, ranks: seq<Rank>, out: seq<CollectedSource>)
    requires Keyed(m) && Ranked(m, ranks, out)
    ensures forall i | 0 <= i < |out| :: Normalize(out[i]) == Some(out[i])
  {
    hide Normalize, KeyOf, RankOf;
  }

  /** Keys are distinct, exactly those of the valid inputs, and strictly sorted. */
  lemma CanonicalForm(sources: seq<CollectedSource>)
    requires WellFormed(sources)
    ensures var out := Canonical(sources);
            && StrictlySorted(out)
            && (forall k :: HasKey(out, k) <==> exists s :: s in sources && IdentityKey(s) == Some(k))
            && (forall i | 0 <= i < |out| :: Normalize(out[i]) == Some(out[i]))
  {
    var m, out := Merged(sources), Canonical(sources);
    hide StableIDs, Fits, Merged, Canonical, IdentityKey, Normalize, StrictlySorted, HasKey, Ranked, Keyed, Comparable,
      SortedRanks;
    MergedIsKeyed(sources);
    WellFormedIsComparable(sources);
    CanonicalRanks(sources);
    CanonicalKeys(sources);
    RankedIsSorted(m, out);
    RankedIsClean(m, SortedRanks(m), out);
  }

  /** Direct sources first, of one kind those of higher priority, then by source, vendor, model and the source's
      own model id. */
  predicate ListedBefore(a: CollectedSource, b: CollectedSource) {
    || (a.isDirect && !b.isDirect)
    || (a.isDirect == b.isDirect
        && (a.authorityPriority > b.authorityPriority
            || (a.authorityPriority == b.authorityPriority && IDsBefore(a, b))))
  }

  predicate IDsBefore(a: CollectedSource, b: CollectedSource) {
    || Less(a.sourceID, b.sourceID)
    || (a.sourceID == b.sourceID
        && (|| Less(a.vendorID, b.vendorID)
            || (a.vendorID == b.vendorID
                && (|| Less(a.modelID, b.modelID)
                    || (a.modelID == b.modelID && Less(a.sourceModelID, b.sourceModelID))))))
  }

  lemma ComparedBefore(a: CollectedSource, b: CollectedSource)
    requires CompareSources(a, b) < 0 && Fits(b.authorityPriority, a.authorityPriority)
    ensures ListedBefore(a, b)
  {
    hide Less;
    if a.isDirect == b.isDirect && a.authorityPriority != b.authorityPriority { HigherPriorityFirstIff(a, b); }
  }

  lemma PrioritiesFit(sources: seq<CollectedSource>, x: CollectedSource, y: CollectedSource)
    requires WellFormed(sources) && x in Canonical(sources) && y in Canonical(sources)
    ensures Fits(x.authorityPriority, y.authorityPriority)
  {
    MergedIsKeyed(sources);
    CanonicalRanks(sources);
    hide StableIDs, Fits, Merged, Canonical, IdentityKey, Normalize, KeyOf, SortedRanks;
    var p := PriorityFrom(sources, x);
    var q := PriorityFrom(sources, y);
  }

  lemma PriorityFrom(sources: seq<CollectedSource>, x: CollectedSource) returns (s: CollectedSource)
    requires WellFormed(sources) && x in Canonical(sources)
    ensures s in sources && s.authorityPriority == x.authorityPriority
  {
    MergedIsKeyed(sources);
    CanonicalRanks(sources);
    hide StableIDs, Fits, Merged, Canonical, IdentityKey, Normalize, SortedRanks, KeyOf;
    var i :| 0 <= i < |Canonical(sources)| && Canonical(sources)[i] == x;
    MergedPriority(sources, KeyOf(x));
    s :| s in sources && IdentityKey(s) == Some(KeyOf(x)) && s.authorityPriority == x.authorityPriority;
  }

  /** The normalised list is in that order. */
  lemma CanonicalOrder(sources: seq<CollectedSource>, i: nat, j: nat)
    requires WellFormed(sources) && i < j < |Canonical(sources)|
    ensures ListedBefore(Canonical(sources)[i], Canonical(sources)[j])
  {
    CanonicalForm(sources);
    hide WellFormed, Canonical, CompareSources, KeyOf, Normalize, IdentityKey, HasKey, ListedBefore, Fits;
    var x, y := Canonical(sources)[i], Canonical(sources)[j];
    PrioritiesFit(sources, y, x);
    ComparedBefore(x, y);
  }

  /** Two normalised sources become one exactly if they agree in vendor, model, source, own model id and
      directness. */
  lemma MergeIntoOneIff(s: CollectedSource, t: CollectedSource)
    requires Normalize(s) == Some(s) && Normalize(t) == Some(t)
    ensures |Merged([s, t])| == 1
            <==> && s.vendorID == t.vendorID && s.modelID == t.modelID && s.sourceID == t.sourceID
                 && s.sourceModelID == t.sourceModelID && s.isDirect == t.isDirect
  {
    TwoKeys(s, t);
    OneOrTwo(KeyOf(s), KeyOf(t));
    hide Normalize, Merged;
    assert |Merged([s, t])| == |Merged([s, t]).Keys|;
  }

  lemma OneOrTwo(a: Key, b: Key)
    ensures |{a, b}| == if a == b then 1 else 2
  {
  }

  lemma TwoKeys(s: CollectedSource, t: CollectedSource)
    requires Normalize(s) == Some(s) && Normalize(t) == Some(t)
    ensures Merged([s, t]).Keys == {KeyOf(s), KeyOf(t)}
  {
    hide Normalize, IdentityKey, MergeNormalized, KeyOf;
    CleanSourceKey(s);
    CleanSourceKey(t);
    assert [s, t][..1] == [s] && [s][..0] == [];
    assert Merged([s]) == AddSource(map[], s);
    assert Merged([s, t]) == AddSource(Merged([s]), t);
  }

  lemma SameRanks(m: map<Key, CollectedSource>, n: map<Key, CollectedSource>)
    requires m.Keys == n.Keys && forall k | k in m :: m[k].authorityPriority == n[k].authorityPriority
    ensures SortedRanks(m) == SortedRanks(n)
  {
    assert Ranks(m) == Ranks(n);
  }

  lemma TopPriorityIsUnique(s: seq<CollectedSource>, t: seq<CollectedSource>, k: Key, p: int, q: int)
    requires forall x :: x in s <==> x in t
    requires IsTopPriority(s, k, p) && IsTopPriority(t, k, q)
    ensures p == q
  {
    hide IdentityKey;
  }

  /** The key sequence does not depend on the order in which the sources are listed. */
  lemma KeySequenceIsOrderFree(s: seq<CollectedSource>, t: seq<CollectedSource>)
    requires forall x :: x in s <==> x in t
    requires forall x | x in s :: StableIDs(x)
    ensures SortedRanks(Merged(s)) == SortedRanks(Merged(t))
    ensures |Canonical(s)| == |Canonical(t)|
    ensures forall i | 0 <= i < |Canonical(s)| :: KeyOf(Canonical(s)[i]) == KeyOf(Canonical(t)[i])
  {
    MergedIsKeyed(s);
    MergedIsKeyed(t);
    CanonicalRanks(s);
    CanonicalRanks(t);
    hide Merged, StableIDs, Canonical, IdentityKey, Normalize, SortedRanks, IsTopPriority, KeyOf;
    var m, n := Merged(s), Merged(t);
    forall k | k in m ensures k in n && m[k].authorityPriority == n[k].authorityPriority {
      MergedPriority(s, k);
      MergedPriority(t, k);
      TopPriorityIsUnique(s, t, k, m[k].authorityPriority, n[k].authorityPriority);
    }
    assert m.Keys == n.Keys;
    SameRanks(m, n);
    SameKeys(m, n, SortedRanks(m), Canonical(s), Canonical(t));
  }

  lemma SameKeys(m: map<Key, CollectedSource>, n: map<Key, CollectedSource>, ranks: seq<Rank>,
            a: seq<CollectedSource>, b: seq<CollectedSource>)
    requires Ranked(m, ranks, a) && Ranked(n, ranks, b)
    ensures |a| == |b| && forall i | 0 <= i < |a| :: KeyOf(a[i]) == KeyOf(b[i])
  {
    forall i | 0 <= i < |a| ensures KeyOf(a[i]) == KeyOf(b[i]) {
      assert RankKey(ranks[i]) == KeyOf(a[i]) && RankKey(ranks[i]) == KeyOf(b[i]);
    }
  }

  ghost predicate ListsPart(m: map<Key, CollectedSource>, s: seq<CollectedSource>) {
    && (forall i | 0 <= i < |s| :: KeyOf(s[i]) in m && m[KeyOf(s[i])] == s[i])
    && (forall i, j | 0 <= i < j < |s| :: KeyOf(s[i]) != KeyOf(s[j]))
  }

  lemma CleanSourceKey(s: CollectedSource)
    requires Normalize(s) == Some(s)
    ensures IdentityKey(s) == Some(KeyOf(s))
  {
  }

  lemma HasKeyOfLast(s: seq<CollectedSource>)
    requires s != []
    ensures forall k :: HasKey(s, k) <==> HasKey(s[..|s| - 1], k) || k == KeyOf(s[|s| - 1])
  {
    var init, last := s[..|s| - 1], s[|s| - 1];
    forall k ensures HasKey(s, k) <==> HasKey(init, k) || k == KeyOf(last) {
      if HasKey(init, k) { var i :| 0 <= i < |init| && KeyOf(init[i]) == k; assert KeyOf(s[i]) == k; }
      if HasKey(s, k) { var i :| 0 <= i < |s| && KeyOf(s[i]) == k; assert i < |init| ==> KeyOf(init[i]) == k; }
      assert KeyOf(s[|s| - 1]) == KeyOf(last);
    }
  }

  lemma AddCleanSource(m: map<Key, CollectedSource>, s: CollectedSource)
    requires Normalize(s) == Some(s) && KeyOf(s) !in m
    ensures AddSource(m, s) == m[KeyOf(s) := s]
  {
    CleanSourceKey(s);
  }

  lemma {:induction false} MergedOfDistinct(m: map<Key, CollectedSource>, s: seq<CollectedSource>)
    requires Keyed(m) && ListsPart(m, s)
    ensures forall k :: k in Merged(s) <==> HasKey(s, k)
    ensures forall k | k in Merged(s) :: k in m && Merged(s)[k] == m[k]
    decreases |s|
  {
    hide Normalize, AddSource, HasKey;
    if s == [] {
      NoKeys();
    } else {
      var init, last := s[..|s| - 1], s[|s| - 1];
      MergedOfDistinct(m, init);
      HasKeyOfLast(s);
      if HasKey(init, KeyOf(last)) { KeyRepeats(m, s); }
      AddCleanSource(Merged(init), last);
    }
  }

  lemma NoKeys()
    ensures forall k :: !HasKey([], k)
  {
  }

  lemma KeyRepeats(m: map<Key, CollectedSource>, s: seq<CollectedSource>)
    requires ListsPart(m, s) && s != []
    ensures !HasKey(s[..|s| - 1], KeyOf(s[|s| - 1]))
  {
    var init := s[..|s| - 1];
    forall i | 0 <= i < |init| ensures KeyOf(init[i]) != KeyOf(s[|s| - 1]) { assert init[i] == s[i]; }
  }

  /** Normalising a canonical list changes nothing. */
  lemma CanonicalIsIdempotent(sources: seq<CollectedSource>)
    requires WellFormed(sources)
    ensures Canonical(Canonical(sources)) == Canonical(sources)
  {
    var m, out := Merged(sources), Canonical(sources);
    MergedIsKeyed(sources);
    CanonicalForm(sources);
    CanonicalRanks(sources);
    CanonicalKeys(sources);
    MergedOfCanonical(sources);
  }

  lemma RankedIsPart(m: map<Key, CollectedSource>, ranks: seq<Rank>, out: seq<CollectedSource>)
    requires Ranked(m, ranks, out) && forall i, j | 0 <= i < j < |out| :: KeyOf(out[i]) != KeyOf(out[j])
    ensures ListsPart(m, out)
  {
    hide KeyOf, RankOf;
  }

  lemma MergedOfCanonical(sources: seq<CollectedSource>)
    requires WellFormed(sources)
    ensures Merged(Canonical(sources)) == Merged(sources)
  {
    hide StableIDs, IdentityKey, Normalize, CompareSources, Canonical, Merged, SortedRanks, HasKey, KeyOf, Keyed,
      Ranked, Fits, ListsPart;
    MergedIsKeyed(sources);
    CanonicalForm(sources);
    CanonicalRanks(sources);
    CanonicalKeys(sources);
    SameMap(Merged(sources), SortedRanks(Merged(sources)), Canonical(sources));
  }

  lemma SameMap(m: map<Key, CollectedSource>, ranks: seq<Rank>, out: seq<CollectedSource>)
    requires Keyed(m) && Ranked(m, ranks, out)
    requires forall i, j | 0 <= i < j < |out| :: KeyOf(out[i]) != KeyOf(out[j])
    requires forall k :: k in m <==> HasKey(out, k)
    ensures Merged(out) == m
  {
    hide *;
    RankedIsPart(m, ranks, out);
    MergedOfDistinct(m, out);
    assert Merged(out).Keys == m.Keys;
  }
}
