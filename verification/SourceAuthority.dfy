/** How much a source, and an entry collected from several sources, is trusted
    (source_authority.go, source_priority.go). */
module SourceAuthority {
  import opened Text
  import opened Ordering
  import opened Slugs
  import opened EntryMerge
  import opened CollectedSources

  const AUTHORITY: map<string, int> := map[
    "github-models" := 600,
    "cerebras" := 500,
    "modelscope" := 400,
    "nvidia-integrate" := 300,
    "huggingface-hub" := 200,
    "openrouter" := 100]

  function LookupAuthority(sourceID: string): (p: nat) {
    var id := VendorSlug(sourceID);
    if id in AUTHORITY then AUTHORITY[id] else 0
  }

  function SourcePriority(s: CollectedSource): (p: nat) {
    if s.authorityPriority > 0 then s.authorityPriority else LookupAuthority(s.sourceID)
  }

  /** What the six listed sources count for; any other counts for nothing. */
  lemma ListedAuthorities(sourceID: string)
    ensures LookupAuthority(sourceID)
            == match VendorSlug(sourceID)
               case "github-models" => 600
               case "cerebras" => 500
               case "modelscope" => 400
               case "nvidia-integrate" => 300
               case "huggingface-hub" => 200
               case "openrouter" => 100
               case _ => 0
  {
    hide VendorSlug;
  }

  /** A positive priority of its own is what a source counts for, else what it is listed with. */
  lemma PriorityOf(s: CollectedSource)
    ensures SourcePriority(s)
            == if s.authorityPriority > 0 then s.authorityPriority as int else LookupAuthority(s.sourceID)
  {
    hide LookupAuthority;
  }

  /** `compareSourceID`: alphabetical on the trimmed ids, blank last. */
  function CompareSourceID(left: string, right: string): int {
    var l, r := TrimSpace(left), TrimSpace(right);
    if l == r then 0
    else if l == "" then 1
    else if r == "" then -1
    else CompareText(l, r)
  }

  datatype Authority = Authority(priority: int, sourceID: string)

  function CompareAuthority(left: Authority, right: Authority): int {
    if left.priority != right.priority then (if left.priority > right.priority then -1 else 1)
    else CompareSourceID(left.sourceID, right.sourceID)
  }

  predicate Higher(a: Authority, b: Authority) {
    CompareAuthority(a, b) < 0
  }

  predicate Tied(a: Authority, b: Authority) {
    CompareAuthority(a, b) == 0
  }

  /** The higher priority counts; of one priority the source id that comes first, a blank one last. */
  lemma HigherMeans(a: Authority, b: Authority)
    ensures Higher(a, b)
            <==> || a.priority > b.priority
                 || (a.priority == b.priority && !Blank(a.sourceID)
                     && (Blank(b.sourceID) || Less(TrimSpace(a.sourceID), TrimSpace(b.sourceID))))
  {
    LessIrreflexive(TrimSpace(a.sourceID));
    hide Less, TrimSpace;
  }

  /** The authority order is a strict weak order whose ties are an equivalence. */
  lemma AuthoritiesAreOrdered(a: Authority, b: Authority, c: Authority)
    ensures CompareAuthority(a, b) > 0 <==> Higher(b, a)
    ensures Higher(a, b) && Higher(b, c) ==> Higher(a, c)
    ensures Tied(a, b) ==> (Higher(a, c) <==> Higher(b, c)) && (Higher(c, a) <==> Higher(c, b))
    ensures Tied(a, b) && Tied(b, c) ==> Tied(a, c)
  {
    StringsAreOrdered();
    hide Less, TrimSpace;
  }

  function AuthorityOfSource(s: CollectedSource): Authority {
    Authority(SourcePriority(s), VendorSlug(s.sourceID))
  }

  /** The first of the sources' highest authorities. */
  function Best(sources: seq<CollectedSource>): Authority {
    if sources == [] then Authority(-1, "") else
      var best, last := Best(sources[..|sources| - 1]), AuthorityOfSource(sources[|sources| - 1]);
      if Higher(last, best) then last else best
  }

  function AuthorityOf(sources: seq<CollectedSource>): Authority {
    var best := Best(sources);
    Authority(if best.priority > 0 then best.priority else 0, best.sourceID)
  }

  /** The best authority is some source's, and no source's is higher. */
  ghost predicate IsBest(sources: seq<CollectedSource>, a: Authority) {
    && (exists s :: s in sources && AuthorityOfSource(s) == a)
    && (forall s | s in sources :: !Higher(AuthorityOfSource(s), a))
  }

  lemma BestOfTwo(last: Authority, best: Authority, other: Authority)
    requires other == last || !Higher(other, best)
    ensures !Higher(other, if Higher(last, best) then last else best)
  {
    hide CompareSourceID;
    AuthoritiesAreOrdered(other, last, best);
    NeverAboveItself(last);
  }

  lemma {:induction false} BestIsBest(sources: seq<CollectedSource>)
    ensures sources == [] ==> AuthorityOf(sources) == Authority(0, "")
    ensures sources != [] ==> IsBest(sources, Best(sources)) && AuthorityOf(sources) == Best(sources)
    decreases |sources|
  {
    hide SourcePriority, VendorSlug, Higher;
    if sources != [] {
      var init, last := sources[..|sources| - 1], sources[|sources| - 1];
      assert forall s :: s in sources <==> s in init || s == last;
      BestIsBest(init);
      if init == [] { AboveNothing(AuthorityOfSource(last)); }
      forall s | s in sources ensures !Higher(AuthorityOfSource(s), Best(sources)) {
        BestOfTwo(AuthorityOfSource(last), Best(init), AuthorityOfSource(s));
      }
    }
  }

  lemma AboveNothing(a: Authority)
    requires a.priority >= 0
    ensures Higher(a, Authority(-1, ""))
  {
  }

  lemma NeverAboveItself(a: Authority)
    ensures !Higher(a, a)
  {
  }

  lemma SelfTied(a: Authority)
    ensures Tied(a, a)
  {
  }

  method CollectedEntryAuthorityPriority(sources: seq<CollectedSource>) returns (priority: int)
    ensures priority == AuthorityOf(sources).priority
  {
    hide LookupAuthority, CompareSourceID;
    priority := 0;
    for i := 0 to |sources|
      invariant priority == AuthorityOf(sources[..i]).priority
    {
      assert sources[..i + 1][..i] == sources[..i];
      var candidate := SourcePriority(sources[i]);
      if candidate > priority { priority := candidate; }
      BestIsBest(sources[..i]);
    }
    assert sources[..|sources|] == sources;
  }

  method CollectedEntryAuthoritySourceID(sources: seq<CollectedSource>) returns (bestID: string)
    ensures bestID == AuthorityOf(sources).sourceID
  {
    hide LookupAuthority, SourcePriority, VendorSlug, CompareSourceID;
    var bestPriority: int := -1;
    bestID := "";
    for i := 0 to |sources|
      invariant Authority(bestPriority, bestID) == Best(sources[..i])
    {
      assert sources[..i + 1][..i] == sources[..i];
      var priority, sourceID := SourcePriority(sources[i]), VendorSlug(sources[i].sourceID);
      if priority > bestPriority || (priority == bestPriority && CompareSourceID(sourceID, bestID) < 0) {
        bestPriority, bestID := priority, sourceID;
      }
    }
    assert sources[..|sources|] == sources;
  }

  method CompareCollectedEntryAuthority(left: seq<CollectedSource>, right: seq<CollectedSource>) returns (r: int)
    ensures r == CompareAuthority(AuthorityOf(left), AuthorityOf(right))
  {
    hide LookupAuthority, CompareSourceID, Best;
    var leftPriority := CollectedEntryAuthorityPriority(left);
    var rightPriority := CollectedEntryAuthorityPriority(right);
    if leftPriority != rightPriority {
      return if leftPriority > rightPriority then -1 else 1;
    }
    var leftID := CollectedEntryAuthoritySourceID(left);
    var rightID := CollectedEntryAuthoritySourceID(right);
    r := CompareSourceID(leftID, rightID);
  }

  // ---- Authority across a merge of sources ------------------------------------------------------

  /** Two reports of one key both carry a priority of their own, or both leave it to the table. */
  ghost predicate Coherent(sources: seq<CollectedSource>) {
    forall s, t | s in sources && t in sources && IdentityKey(s) == IdentityKey(t) && IdentityKey(s).Some? ::
      s.authorityPriority > 0 <==> t.authorityPriority > 0
  }

  /** Merging two reports of one source keeps the higher priority, unless one leaves its priority
      to the table and the other carries a positive one below the table's. */
  lemma MergeKeepsPriorityIff(p: CollectedSource, f: CollectedSource)
    requires VendorSlug(p.sourceID) == VendorSlug(f.sourceID)
    ensures var table := LookupAuthority(p.sourceID);
            && (SourcePriority(MergeSource(p, f)) == SourcePriority(p)
                || SourcePriority(MergeSource(p, f)) == SourcePriority(f))
            && ((SourcePriority(MergeSource(p, f)) >= SourcePriority(p)
                 && SourcePriority(MergeSource(p, f)) >= SourcePriority(f))
                <==> !(p.authorityPriority <= 0 < f.authorityPriority < table
                       || f.authorityPriority <= 0 < p.authorityPriority < table))
  {
    hide VendorSlug, MergeDefinitions, MergeBadges, MergePricing;
  }

  lemma CerebrasIsListed()
    ensures LookupAuthority("cerebras") == 500
  {
    hide Slug;
    WordIsFixed(Vendor, "cerebras");
  }

  /** Two reports that show it: one leaves its priority to the table, which says 500, the other carries
      a 1, and the merge of them counts as 1. */
  lemma TableLosesToOne(p: CollectedSource, f: CollectedSource)
    requires p.sourceID == f.sourceID == "cerebras" && p.authorityPriority == 0 && f.authorityPriority == 1
    ensures SourcePriority(p) == 500 && SourcePriority(MergeSource(p, f)) == 1
  {
    CerebrasIsListed();
    hide LookupAuthority, MergeDefinitions, MergeBadges, MergePricing;
  }

  /** Clean sources, with identifiers and priorities for which normalising is well defined. */
  ghost predicate Tidy(sources: seq<CollectedSource>) {
    && WellFormed(sources)
    && Coherent(sources)
    && forall s | s in sources :: Normalize(s) == Some(s)
  }

  lemma TopSource(sources: seq<CollectedSource>, k: Key) returns (top: CollectedSource)
    requires Tidy(sources) && k in Merged(sources)
    ensures top in sources && KeyOf(top) == k && IdentityKey(top) == Some(k)
    ensures var m := Merged(sources)[k];
            && AuthorityOfSource(m) == AuthorityOfSource(top)
            && forall s | s in sources && KeyOf(s) == k ::
                 SourcePriority(s) <= SourcePriority(m) && VendorSlug(s.sourceID) == VendorSlug(m.sourceID)
  {
    var m := Merged(sources)[k];
    MergedIsKeyed(sources);
    MergedPriority(sources, k);
    assert KeyOf(m) == k;
    hide Merged, WellFormed, Normalize, IdentityKey, VendorSlug, AUTHORITY;
    top :| top in sources && IdentityKey(top) == Some(k) && top.authorityPriority == m.authorityPriority;
    CleanSourceKey(top);
    forall s | s in sources && KeyOf(s) == k ensures SourcePriority(s) <= SourcePriority(m) {
      CleanSourceKey(s);
      assert s.authorityPriority > 0 <==> top.authorityPriority > 0;
    }
  }

  ghost predicate Lists(m: map<Key, CollectedSource>, out: seq<CollectedSource>) {
    && (forall x | x in out :: KeyOf(x) in m && m[KeyOf(x)] == x)
    && (forall k | k in m :: m[k] in out)
  }

  lemma RankedLists(m: map<Key, CollectedSource>, ranks: seq<Rank>, out: seq<CollectedSource>)
    requires Ranked(m, ranks, out) && forall k | k in m :: HasKey(out, k)
    ensures Lists(m, out)
  {
    hide KeyOf;
    forall k | k in m ensures m[k] in out {
      var i :| 0 <= i < |out| && KeyOf(out[i]) == k;
      assert out[i] == m[k];
    }
  }

  lemma CanonicalLists(sources: seq<CollectedSource>)
    requires WellFormed(sources)
    ensures Lists(Merged(sources), Canonical(sources)) && Keyed(Merged(sources))
    ensures forall k :: k in Merged(sources) <==> exists s :: s in sources && IdentityKey(s) == Some(k)
  {
    CanonicalRanks(sources);
    CanonicalKeys(sources);
    MergedIsKeyed(sources);
    hide Merged, Canonical, Normalize, IdentityKey, StableIDs, Fits, SortedRanks, Ranked, HasKey, Lists;
    RankedLists(Merged(sources), SortedRanks(Merged(sources)), Canonical(sources));
  }

  /** For every source, the normalised list holds one of the same key and no lower authority. */
  lemma SourceSurvives(sources: seq<CollectedSource>, s: CollectedSource) returns (high: CollectedSource)
    requires Tidy(sources) && s in sources
    ensures high in Canonical(sources)
    ensures !Higher(AuthorityOfSource(s), AuthorityOfSource(high))
  {
    CanonicalLists(sources);
    CleanSourceKey(s);
    hide Merged, Canonical, Normalize, WellFormed, Coherent, IdentityKey, SourcePriority, VendorSlug, KeyOf, Keyed,
      Higher;
    high := Merged(sources)[KeyOf(s)];
    var top := TopSource(sources, KeyOf(s));
    NotHigher(AuthorityOfSource(s), AuthorityOfSource(high));
  }

  lemma NotHigher(a: Authority, b: Authority)
    requires a.sourceID == b.sourceID && a.priority <= b.priority
    ensures !Higher(a, b)
  {
  }

  /** Normalising a list of sources keeps its authority. */
  lemma CanonicalKeepsAuthority(sources: seq<CollectedSource>)
    requires Tidy(sources) && sources != []
    ensures Canonical(sources) != []
    ensures Tied(AuthorityOf(Canonical(sources)), AuthorityOf(sources))
  {
    var m, out := Merged(sources), Canonical(sources);
    BestIsBest(sources);
    BestIsBest(out);
    CanonicalLists(sources);
    hide Merged, Canonical, Normalize, WellFormed, Coherent, AuthorityOfSource, Higher, Tied, KeyOf, IdentityKey,
      Keyed, Tidy, Best;
    var top := BestSource(sources);
    var high := SourceSurvives(sources, top);
    var kept := BestSource(out);
    var from := TopSource(sources, KeyOf(kept));
    Sandwich(AuthorityOfSource(high), AuthorityOfSource(top), Best(out), Best(sources));
  }

  lemma BestSource(sources: seq<CollectedSource>) returns (s: CollectedSource)
    requires sources != []
    ensures s in sources && AuthorityOfSource(s) == Best(sources) == AuthorityOf(sources)
    ensures forall x | x in sources :: !Higher(AuthorityOfSource(x), Best(sources))
  {
    BestIsBest(sources);
    hide AuthorityOfSource, Higher, Best, AuthorityOf;
    s :| s in sources && AuthorityOfSource(s) == Best(sources);
  }

  lemma Sandwich(high: Authority, top: Authority, bestOut: Authority, best: Authority)
    requires top == best && !Higher(top, high) && !Higher(high, bestOut) && !Higher(bestOut, best)
    ensures Tied(bestOut, best)
  {
    hide CompareSourceID;
    AuthoritiesAreOrdered(bestOut, best, high);
    AuthoritiesAreOrdered(best, high, bestOut);
    AuthoritiesAreOrdered(high, bestOut, best);
    AuthoritiesAreOrdered(best, bestOut, high);
    AuthoritiesAreOrdered(high, best, bestOut);
    AuthoritiesAreOrdered(bestOut, high, best);
  }
}
