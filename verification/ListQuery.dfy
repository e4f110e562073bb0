/** Listing the registry page by page (store/query_list.go, list_pagination.go, page_size.go). */
module ListQuery {
  import opened Text
  import opened Ordering
  import opened Slugs
  import opened EntryMerge
  import opened MergedFields
  import opened SourceAuthority
  import opened Identities
  import opened RegistryEntries
  import opened Registry
  import opened LikePattern

  // ---- The filter -------------------------------------------------------------------------------

  datatype Filter = Filter(
    vendorIDs: seq<string>,
    modelID: string,
    badge: string,
    query: string,
    sourceIDs: seq<string>,
    category: string,
    lifecycleStatusExclude: seq<string>)

  /** One clause of the where condition. */
  datatype Clause =
    | VendorIn(ids: set<string>)
    | ModelIs(id: string)
    | HasBadge(badge: string)
    | Search(pattern: string)
    | SourceIn(ids: set<string>)
    | CategoryIs(category: int)
    | LifecycleNotIn(statuses: set<int>)

  // ---- Categories and life cycles ---------------------------------------------------------------

  const CATEGORIES: seq<string> := ["chat", "embedding", "rerank", "image_gen", "audio", "video", "moderation"]

  const LIFECYCLE_STATUSES: seq<string> := ["active", "legacy", "deprecated", "eol", "blocked"]

  /** The number of a name in a list of names, by name or by number; -1 for an unknown one. */
  function NumberOf(names: seq<string>, value: string): (n: int)
    requires |names| <= 9
    ensures n == -1 || 1 <= n <= |names|
  {
    if names == [] then -1
    else if value == names[|names| - 1] || value == [('0' as int + |names|) as char] then |names|
    else NumberOf(names[..|names| - 1], value)
  }

  function CategoryFilterToInt(category: string): int {
    NumberOf(CATEGORIES, TrimSpace(Lower(category)))
  }

  function LifecycleStatusToInt(status: string): int {
    NumberOf(LIFECYCLE_STATUSES, TrimSpace(Lower(status)))
  }

  method LifecycleStatusFilterToInts(statuses: seq<string>) returns (out: set<int>)
    ensures out == ExcludedStatuses(statuses)
  {
    hide LifecycleStatusToInt;
    out := {};
    for i := 0 to |statuses|
      invariant out == ExcludedStatuses(statuses[..i])
    {
      assert statuses[..i + 1] == statuses[..i] + [statuses[i]];
      var v := LifecycleStatusToInt(statuses[i]);
      if v >= 0 { out := out + {v}; }
    }
    assert statuses[..|statuses|] == statuses;
  }

  /** The known statuses among those named. */
  function ExcludedStatuses(statuses: seq<string>): set<int> {
    set s | s in statuses && LifecycleStatusToInt(s) >= 0 :: LifecycleStatusToInt(s)
  }

  function DigitsValue(s: string): int {
    if s == "" then 0 else 10 * DigitsValue(s[..|s| - 1]) + (s[|s| - 1] as int - '0' as int)
  }

  predicate IsBlank(c: char) {
    c == ' ' || '\t' <= c <= '\r'
  }

  /** What `::int` makes of a text, if it is a decimal number of 32 bits. */
  function AsInt(text: string): Option<int> {
    var s := Trim(IsBlank, text);
    var digits := if s != "" && (s[0] == '-' || s[0] == '+') then s[1..] else s;
    if digits == "" || !All(IsDigit, digits) then None
    else
      var n := if s[0] == '-' then -DigitsValue(digits) else DigitsValue(digits);
      if -0x8000_0000 <= n < 0x8000_0000 then Some(n) else None
  }

  predicate IsDigit(c: char) {
    '0' <= c <= '9'
  }

  /** `coalesce(definition ->> key, '')` for a key that is no field of its own. */
  function MemberText(d: ModelVersion, key: string): string {
    if key in d.others then d.others[key] else ""
  }

  function MemberNumber(d: ModelVersion, key: string): Option<int> {
    if key in d.others then AsInt(d.others[key]) else None
  }

  // ---- The where condition ----------------------------------------------------------------------

  function Spaced(s: string): string {
    Map(c => if c == '-' then ' ' else c, s)
  }

  predicate LikeText(text: string, pattern: string) {
    Like(Lower(text), pattern) || Like(Lower(Spaced(text)), pattern)
  }

  /** The search clause: ids, display name, canonical id, family, aliases and observations, most of them
      also with dashes read as spaces. */
  predicate SearchHit(t: Tables, id: SurfaceIdentity, pattern: string)
    requires id in t.entries
  {
    || LikeText(id.modelID, pattern)
    || LikeText(id.vendorID, pattern)
    || Like(Lower(t.entries[id].definition.displayName), pattern)
    || Like(Lower(MemberText(t.entries[id].definition, "canonical_model_id")), pattern)
    || LikeText(MemberText(t.entries[id].definition, "family_slug"), pattern)
    || (exists r :: r in t.aliases && r.id == id && LikeText(r.alias.value, pattern))
    || (exists r :: r in t.observations && r.id == id && LikeText(r.key.sourceID, pattern))
    || (exists r :: r in t.observations && r.id == id && LikeText(r.key.sourceModelID, pattern))
  }

  /** The life cycle status under the key the clause reads, zero without one. */
  function LifecycleOf(d: ModelVersion): int {
    match MemberNumber(d, "lifecycleStatus")
    case None => 0
    case Some(n) => n
  }

  predicate Satisfies(t: Tables, id: SurfaceIdentity, c: Clause)
    requires id in t.entries
  {
    match c
    case VendorIn(ids) => id.vendorID in ids
    case ModelIs(m) => id.modelID == m
    case HasBadge(badge) => badge in t.entries[id].badges
    case Search(pattern) => SearchHit(t, id, pattern)
    case SourceIn(ids) => exists r :: r in t.observations && r.id == id && r.key.sourceID in ids
    case CategoryIs(n) => MemberNumber(t.entries[id].definition, "category") == Some(n)
    case LifecycleNotIn(ns) => LifecycleOf(t.entries[id].definition) !in ns
  }

  /** A missing member is null, which the cast leaves alone; a text that is no number makes it fail. */
  predicate IsNumber(d: ModelVersion, key: string) {
    key in d.others ==> AsInt(d.others[key]).Some?
  }

  /** Whether the cast a clause makes succeeds. */
  predicate Casts(d: ModelVersion, c: Clause) {
    match c
    case CategoryIs(_) => IsNumber(d, "category")
    case LifecycleNotIn(_) => IsNumber(d, "lifecycleStatus")
    case _ => true
  }

  predicate Castable(d: ModelVersion, clauses: seq<Clause>) {
    forall c | c in clauses :: Casts(d, c)
  }

  /** No clause that can be evaluated rules the row out. */
  predicate Undecided(t: Tables, id: SurfaceIdentity, clauses: seq<Clause>)
    requires id in t.entries
  {
    forall c | c in clauses && Casts(t.entries[id].definition, c) :: Satisfies(t, id, c)
  }

  function NormalizedVendorIDs(values: seq<string>): set<string> {
    set v | v in values && VendorSlug(v) != "" :: VendorSlug(v)
  }

  /** Only sources of the authority table can be asked for. */
  function KnownSourceIDs(values: seq<string>): set<string> {
    set v | v in values && VendorSlug(v) in AUTHORITY :: VendorSlug(v)
  }

  predicate Passes(t: Tables, id: SurfaceIdentity, clauses: seq<Clause>)
    requires id in t.entries
  {
    forall c | c in clauses :: Satisfies(t, id, c)
  }

  /** The clauses on the columns of the entry itself. */
  method ApplyColumns(filter: Filter) returns (clauses: seq<Clause>)
    ensures clauses == ByVendor(filter) + ByModel(filter) + ByBadge(filter) + ByQuery(filter)
  {
    hide NormalizeBadge, NormalizedVendorIDs, TrimSpace, LikeContainsPattern;
    clauses := [];
    if filter.vendorIDs != [] { clauses := clauses + [VendorIn(NormalizedVendorIDs(filter.vendorIDs))]; }
    assert clauses == ByVendor(filter);
    if TrimSpace(filter.modelID) != "" { clauses := clauses + [ModelIs(TrimSpace(filter.modelID))]; }
    assert clauses == ByVendor(filter) + ByModel(filter);
    if filter.badge != "" {
      var badge := NormalizeBadge(filter.badge);
      if badge != "" { clauses := clauses + [HasBadge(badge)]; }
    }
    assert clauses == ByVendor(filter) + ByModel(filter) + ByBadge(filter);
    if TrimSpace(filter.query) != "" { clauses := clauses + [Search(LikeContainsPattern(TrimSpace(filter.query)))]; }
  }

  /** The clauses on the sources and on the definition. */
  method ApplyRest(filter: Filter) returns (clauses: seq<Clause>)
    ensures clauses == BySource(filter) + ByCategory(filter) + ByLifecycle(filter)
  {
    hide KnownSourceIDs, CategoryFilterToInt, ExcludedStatuses;
    clauses := [];
    if filter.sourceIDs != [] { clauses := clauses + [SourceIn(KnownSourceIDs(filter.sourceIDs))]; }
    assert clauses == BySource(filter);
    if filter.category != "" {
      var category := CategoryFilterToInt(filter.category);
      if category >= 0 { clauses := clauses + [CategoryIs(category)]; }
    }
    assert clauses == BySource(filter) + ByCategory(filter);
    if filter.lifecycleStatusExclude != [] {
      var excluded := LifecycleStatusFilterToInts(filter.lifecycleStatusExclude);
      if excluded != {} { clauses := clauses + [LifecycleNotIn(excluded)]; }
    }
  }

  /** The where condition: its casts succeed exactly on the models the filter can be asked about, and of
      those a model passes it exactly when the filter accepts it. */
  method BuildPredicate(filter: Filter) returns (clauses: seq<Clause>)
    ensures clauses == ClausesOf(filter)
    ensures forall d :: Castable(d, clauses) <==> FilterReads(d, filter)
    ensures forall t: Tables, id | id in t.entries :: Passes(t, id, clauses) <==> FilterAccepts(t, id, filter)
  {
    hide *;
    clauses := ApplyColumns(filter);
    var rest := ApplyRest(filter);
    clauses := clauses + rest;
    assert clauses == ClausesOf(filter) by { ClausesAre(filter); }
    forall d ensures Castable(d, clauses) <==> FilterReads(d, filter) {
      CastableIff(d, filter);
    }
    forall t: Tables, id | id in t.entries ensures Passes(t, id, clauses) <==> FilterAccepts(t, id, filter) {
      ClausesMeanFilter(t, id, filter);
    }
  }

  /** A text mentions the query, in lower case, read with or without its dashes. */
  ghost predicate Mentions(text: string, query: string) {
    Contains(Lower(text), query) || Contains(Lower(Spaced(text)), query)
  }

  /** Some searched text of the model contains the query. */
  ghost predicate Mentioned(t: Tables, id: SurfaceIdentity, query: string)
    requires id in t.entries
  {
    || Mentions(id.modelID, query)
    || Mentions(id.vendorID, query)
    || Contains(Lower(t.entries[id].definition.displayName), query)
    || Contains(Lower(MemberText(t.entries[id].definition, "canonical_model_id")), query)
    || Mentions(MemberText(t.entries[id].definition, "family_slug"), query)
    || (exists r :: r in t.aliases && r.id == id && Mentions(r.alias.value, query))
    || (exists r :: r in t.observations && r.id == id && Mentions(r.key.sourceID, query))
    || (exists r :: r in t.observations && r.id == id && Mentions(r.key.sourceModelID, query))
  }

  /** What the filter asks for, without SQL. */
  ghost predicate FilterAccepts(t: Tables, id: SurfaceIdentity, filter: Filter)
    requires id in t.entries
  {
    && (filter.vendorIDs != [] ==> id.vendorID in NormalizedVendorIDs(filter.vendorIDs))
    && (!Blank(filter.modelID) ==> id.modelID == TrimSpace(filter.modelID))
    && (NormalizeBadge(filter.badge) != "" ==> NormalizeBadge(filter.badge) in t.entries[id].badges)
    && (!Blank(filter.query) ==> Mentioned(t, id, Lower(TrimSpace(filter.query))))
    && (filter.sourceIDs != []
        ==> exists r :: r in t.observations && r.id == id && r.key.sourceID in KnownSourceIDs(filter.sourceIDs))
    && InCategory(t.entries[id].definition, filter.category)
    && LifecycleOf(t.entries[id].definition) !in ExcludedStatuses(filter.lifecycleStatusExclude)
  }

  /** The members the filter asks about are absent or numbers. */
  predicate FilterReads(d: ModelVersion, filter: Filter) {
    && (CategoryFilterToInt(filter.category) >= 0 ==> IsNumber(d, "category"))
    && (ExcludedStatuses(filter.lifecycleStatusExclude) != {} ==> IsNumber(d, "lifecycleStatus"))
  }

  /** An unknown category asks for nothing. */
  predicate InCategory(d: ModelVersion, category: string) {
    CategoryFilterToInt(category) >= 0 ==> MemberNumber(d, "category") == Some(CategoryFilterToInt(category))
  }

  lemma LikeTextIsMentions(text: string, query: string)
    ensures LikeText(text, LikeContainsPattern(query)) <==> Mentions(text, Lower(TrimSpace(query)))
  {
    hide Like, LikeContainsPattern, Contains, Lower, TrimSpace, Spaced;
    LikeIsContains(Lower(text), query);
    LikeIsContains(Lower(Spaced(text)), query);
  }

  /** Searching through LIKE patterns finds exactly the models that mention the query. */
  lemma SearchIsSubstring(t: Tables, id: SurfaceIdentity, query: string)
    requires id in t.entries
    ensures SearchHit(t, id, LikeContainsPattern(query)) <==> Mentioned(t, id, Lower(TrimSpace(query)))
  {
    hide Like, LikeContainsPattern, Contains, Lower, TrimSpace, LikeText, Mentions;
    LikeTextIsMentions(id.modelID, query);
    LikeTextIsMentions(id.vendorID, query);
    LikeIsContains(Lower(t.entries[id].definition.displayName), query);
    LikeIsContains(Lower(MemberText(t.entries[id].definition, "canonical_model_id")), query);
    LikeTextIsMentions(MemberText(t.entries[id].definition, "family_slug"), query);
    forall r | r in t.aliases ensures LikeText(r.alias.value, LikeContainsPattern(query))
      <==> Mentions(r.alias.value, Lower(TrimSpace(query))) {
      LikeTextIsMentions(r.alias.value, query);
    }
    forall r | r in t.observations
      ensures LikeText(r.key.sourceID, LikeContainsPattern(query))
              <==> Mentions(r.key.sourceID, Lower(TrimSpace(query)))
      ensures LikeText(r.key.sourceModelID, LikeContainsPattern(query))
              <==> Mentions(r.key.sourceModelID, Lower(TrimSpace(query)))
    {
      LikeTextIsMentions(r.key.sourceID, query);
      LikeTextIsMentions(r.key.sourceModelID, query);
    }
  }

  lemma NoBadge()
    ensures NormalizeBadge("") == ""
  {
  }

  function Optional(given: bool, c: Clause): seq<Clause> {
    if given then [c] else []
  }

  lemma PassesOptional(t: Tables, id: SurfaceIdentity, given: bool, c: Clause)
    requires id in t.entries
    ensures Passes(t, id, Optional(given, c)) <==> (given ==> Satisfies(t, id, c))
  {
    hide Satisfies;
    if given { assert c in Optional(given, c); }
  }

  lemma PassesConcat(t: Tables, id: SurfaceIdentity, a: seq<Clause>, b: seq<Clause>)
    requires id in t.entries
    ensures Passes(t, id, a + b) <==> Passes(t, id, a) && Passes(t, id, b)
  {
    hide Satisfies;
    if Passes(t, id, a + b) {
      forall c | c in a ensures Satisfies(t, id, c) { assert c in a + b; }
      forall c | c in b ensures Satisfies(t, id, c) { assert c in a + b; }
    }
  }

  function ByVendor(f: Filter): seq<Clause> { Optional(f.vendorIDs != [], VendorIn(NormalizedVendorIDs(f.vendorIDs))) }

  function ByModel(f: Filter): seq<Clause> { Optional(TrimSpace(f.modelID) != "", ModelIs(TrimSpace(f.modelID))) }

  function ByBadge(f: Filter): seq<Clause> {
    Optional(f.badge != "" && NormalizeBadge(f.badge) != "", HasBadge(NormalizeBadge(f.badge)))
  }

  function ByQuery(f: Filter): seq<Clause> {
    Optional(TrimSpace(f.query) != "", Search(LikeContainsPattern(TrimSpace(f.query))))
  }

  function BySource(f: Filter): seq<Clause> { Optional(f.sourceIDs != [], SourceIn(KnownSourceIDs(f.sourceIDs))) }

  function ByCategory(f: Filter): seq<Clause> {
    Optional(f.category != "" && CategoryFilterToInt(f.category) >= 0, CategoryIs(CategoryFilterToInt(f.category)))
  }

  function ByLifecycle(f: Filter): seq<Clause> {
    var excluded := ExcludedStatuses(f.lifecycleStatusExclude);
    Optional(f.lifecycleStatusExclude != [] && excluded != {}, LifecycleNotIn(excluded))
  }

  function ClausesOf(f: Filter): seq<Clause> {
    (ByVendor(f) + ByModel(f) + ByBadge(f) + ByQuery(f)) + (BySource(f) + ByCategory(f) + ByLifecycle(f))
  }

  lemma ClausesAre(f: Filter)
    ensures ClausesOf(f)
            == (ByVendor(f) + ByModel(f) + ByBadge(f) + ByQuery(f)) + (BySource(f) + ByCategory(f) + ByLifecycle(f))
  {
  }

  /** Only the last two clauses cast. */
  lemma CastingClauses(f: Filter, c: Clause)
    ensures c in ClausesOf(f) && c.CategoryIs? <==> c in ByCategory(f)
    ensures c in ClausesOf(f) && c.LifecycleNotIn? <==> c in ByLifecycle(f)
  {
    hide NormalizedVendorIDs, TrimSpace, NormalizeBadge, LikeContainsPattern, KnownSourceIDs, CategoryFilterToInt,
      ExcludedStatuses;
  }

  lemma CategoryCasts(d: ModelVersion, f: Filter)
    ensures Castable(d, ByCategory(f)) <==> (CategoryFilterToInt(f.category) >= 0 ==> IsNumber(d, "category"))
  {
    NoCategory();
    hide CategoryFilterToInt, IsNumber;
    if CategoryFilterToInt(f.category) >= 0 {
      assert CategoryIs(CategoryFilterToInt(f.category)) in ByCategory(f);
    }
  }

  lemma LifecycleCasts(d: ModelVersion, f: Filter)
    ensures Castable(d, ByLifecycle(f))
            <==> (ExcludedStatuses(f.lifecycleStatusExclude) != {} ==> IsNumber(d, "lifecycleStatus"))
  {
    hide LifecycleStatusToInt, IsNumber;
    if ExcludedStatuses(f.lifecycleStatusExclude) != {} {
      assert LifecycleNotIn(ExcludedStatuses(f.lifecycleStatusExclude)) in ByLifecycle(f);
    }
  }

  lemma CastableIff(d: ModelVersion, f: Filter)
    ensures Castable(d, ClausesOf(f)) <==> FilterReads(d, f)
  {
    CategoryCasts(d, f);
    LifecycleCasts(d, f);
    hide ClausesOf, CategoryFilterToInt, ExcludedStatuses, IsNumber, ByCategory, ByLifecycle;
    forall c ensures c in ClausesOf(f) && !Casts(d, c) <==> c in ByCategory(f) + ByLifecycle(f) && !Casts(d, c) {
      CastingClauses(f, c);
    }
  }

  lemma NoCategory()
    ensures CategoryFilterToInt("") == -1
  {
    TrimmedIsFixed(IsSpace, "");
    assert Lower("") == "";
    CategoriesAreNamed();
    hide TrimSpace, NumberOf, CATEGORIES;
    NoName(CATEGORIES);
  }

  lemma CategoriesAreNamed()
    ensures |CATEGORIES| == 7 && forall i | 0 <= i < |CATEGORIES| :: CATEGORIES[i] != ""
  {
  }

  lemma {:induction false} NoName(names: seq<string>)
    requires |names| <= 9 && forall i | 0 <= i < |names| :: names[i] != ""
    ensures NumberOf(names, "") == -1
  {
    if names != [] { NoName(names[..|names| - 1]); }
  }

  lemma CategoryClause(t: Tables, id: SurfaceIdentity, f: Filter)
    requires id in t.entries
    ensures Passes(t, id, ByCategory(f)) <==> InCategory(t.entries[id].definition, f.category)
  {
    NoCategory();
    hide Passes, Optional, SearchHit, CategoryFilterToInt, MemberNumber;
    var n := CategoryFilterToInt(f.category);
    PassesOptional(t, id, f.category != "" && n >= 0, CategoryIs(n));
  }

  lemma LifecycleClause(t: Tables, id: SurfaceIdentity, f: Filter)
    requires id in t.entries
    ensures Passes(t, id, ByLifecycle(f))
            <==> LifecycleOf(t.entries[id].definition) !in ExcludedStatuses(f.lifecycleStatusExclude)
  {
    hide Passes, Optional, SearchHit, LifecycleStatusToInt, LifecycleOf;
    PassesOptional(t, id, f.lifecycleStatusExclude != [] && ExcludedStatuses(f.lifecycleStatusExclude) != {},
                   LifecycleNotIn(ExcludedStatuses(f.lifecycleStatusExclude)));
  }

  lemma VendorClause(t: Tables, id: SurfaceIdentity, f: Filter)
    requires id in t.entries
    ensures Passes(t, id, ByVendor(f)) <==> (f.vendorIDs != [] ==> id.vendorID in NormalizedVendorIDs(f.vendorIDs))
  {
    hide Passes, Optional, NormalizedVendorIDs, SearchHit;
    PassesOptional(t, id, f.vendorIDs != [], VendorIn(NormalizedVendorIDs(f.vendorIDs)));
  }

  lemma ModelClause(t: Tables, id: SurfaceIdentity, f: Filter)
    requires id in t.entries
    ensures Passes(t, id, ByModel(f)) <==> (!Blank(f.modelID) ==> id.modelID == TrimSpace(f.modelID))
  {
    hide Passes, Optional, TrimSpace, SearchHit;
    PassesOptional(t, id, TrimSpace(f.modelID) != "", ModelIs(TrimSpace(f.modelID)));
  }

  lemma BadgeClause(t: Tables, id: SurfaceIdentity, f: Filter)
    requires id in t.entries
    ensures Passes(t, id, ByBadge(f))
            <==> (NormalizeBadge(f.badge) != "" ==> NormalizeBadge(f.badge) in t.entries[id].badges)
  {
    NoBadge();
    hide Passes, Optional, NormalizeBadge, SearchHit;
    PassesOptional(t, id, f.badge != "" && NormalizeBadge(f.badge) != "", HasBadge(NormalizeBadge(f.badge)));
  }

  lemma QueryClause(t: Tables, id: SurfaceIdentity, f: Filter)
    requires id in t.entries
    ensures Passes(t, id, ByQuery(f)) <==> (!Blank(f.query) ==> Mentioned(t, id, Lower(TrimSpace(f.query))))
  {
    TrimTwice(f.query);
    SearchIsSubstring(t, id, TrimSpace(f.query));
    hide Passes, Optional, TrimSpace, SearchHit, Mentioned, LikeContainsPattern, Lower;
    PassesOptional(t, id, TrimSpace(f.query) != "", Search(LikeContainsPattern(TrimSpace(f.query))));
  }

  lemma SourceClause(t: Tables, id: SurfaceIdentity, f: Filter)
    requires id in t.entries
    ensures Passes(t, id, BySource(f))
            <==> (f.sourceIDs != []
                  ==> exists r :: r in t.observations && r.id == id && r.key.sourceID in KnownSourceIDs(f.sourceIDs))
  {
    hide Passes, Optional, KnownSourceIDs, SearchHit;
    PassesOptional(t, id, f.sourceIDs != [], SourceIn(KnownSourceIDs(f.sourceIDs)));
  }

  lemma PassesThree(t: Tables, id: SurfaceIdentity, a: seq<Clause>, b: seq<Clause>, c: seq<Clause>)
    requires id in t.entries
    ensures Passes(t, id, a + b + c) <==> Passes(t, id, a) && Passes(t, id, b) && Passes(t, id, c)
  {
    hide Passes;
    PassesConcat(t, id, a, b);
    PassesConcat(t, id, a + b, c);
  }

  lemma ClausesMeanFilter(t: Tables, id: SurfaceIdentity, f: Filter)
    requires id in t.entries
    ensures Passes(t, id, ClausesOf(f)) <==> FilterAccepts(t, id, f)
  {
    hide LifecycleOf, ExcludedStatuses, InCategory, ByCategory, ByLifecycle, Mentioned, NormalizeBadge,
      NormalizedVendorIDs, KnownSourceIDs, TrimSpace, Lower, AUTHORITY, Passes, ByVendor, ByModel, ByBadge, ByQuery,
      BySource;
    PassesConcat(t, id, ByVendor(f) + ByModel(f) + ByBadge(f) + ByQuery(f),
                 BySource(f) + ByCategory(f) + ByLifecycle(f));
    PassesThree(t, id, ByVendor(f), ByModel(f), ByBadge(f));
    PassesConcat(t, id, ByVendor(f) + ByModel(f) + ByBadge(f), ByQuery(f));
    PassesThree(t, id, BySource(f), ByCategory(f), ByLifecycle(f));
    VendorClause(t, id, f);
    ModelClause(t, id, f);
    BadgeClause(t, id, f);
    QueryClause(t, id, f);
    SourceClause(t, id, f);
    CategoryClause(t, id, f);
    LifecycleClause(t, id, f);
  }

  // ---- Page tokens ------------------------------------------------------------------------------

  /** What a page token decodes to. Encoding is injective, so a token stands for its content; a string
      that does not decode carries nothing. */
  datatype PageToken = PageToken(continuation: Option<SurfaceIdentity>, offset: int)

  const NO_TOKEN: PageToken := PageToken(None, 0)

  function DecodePageToken(token: PageToken): (r: PageToken) {
    var c := if token.continuation.None? then None
             else NewSurfaceIdentity(token.continuation.value.vendorID, token.continuation.value.modelID);
    PageToken(c, if token.offset < 0 then 0 else token.offset)
  }

  function EncodePageToken(last: SurfaceIdentity, offset: int): PageToken {
    var c := NewSurfaceIdentity(last.vendorID, last.modelID);
    if c.None? then NO_TOKEN else PageToken(c, if offset < 0 then 0 else offset)
  }

  /** A token for a stored identity survives the trip to the client and back. */
  lemma TokenRoundTrip(last: SurfaceIdentity, offset: nat)
    requires TrimmedIdentity(last)
    ensures DecodePageToken(EncodePageToken(last, offset)) == PageToken(Some(last), offset)
    ensures EncodePageToken(last, offset) != NO_TOKEN
  {
    hide TrimSpace;
  }

  const DEFAULT_PAGE_SIZE: nat := 50
  const MAX_PAGE_SIZE: nat := 100

  function NormalizePageSize(size: int): (n: nat)
    ensures 0 < n <= MAX_PAGE_SIZE
  {
    if size <= 0 then DEFAULT_PAGE_SIZE else if size > MAX_PAGE_SIZE then MAX_PAGE_SIZE else size
  }

  function EstimateTotalCount(offset: int, items: nat, remaining: Option<int>, hasMore: bool): int {
    var o := if offset < 0 then 0 else offset;
    if remaining.None? || remaining.value < 0 then (if hasMore then 0 else o + items)
    else o + items + remaining.value
  }

  // ---- One page ---------------------------------------------------------------------------------

  datatype Page = Page(items: seq<SurfaceIdentity>, next: PageToken, total: int)

  /** The models the filter accepts. */
  ghost function Matching(t: Tables, filter: Filter): set<SurfaceIdentity> {
    set id | id in t.entries && FilterAccepts(t, id, filter)
  }

  ghost function After(ids: set<SurfaceIdentity>, continuation: Option<SurfaceIdentity>): set<SurfaceIdentity> {
    set id | id in ids && (continuation.Some? ==> IdentityLess(continuation.value, id))
  }

  /** The rows of a page and those behind it, in order. */
  ghost function Rows(t: Tables, filter: Filter, token: PageToken): seq<SurfaceIdentity> {
    IdentitiesAreOrdered();
    var rows := Enumerate(IdentityLess, After(Matching(t, filter), token.continuation));
    if token.continuation.Some? || token.offset <= 0 then rows
    else if token.offset <= |rows| then rows[token.offset..] else []
  }

  ghost function PageOf(rows: seq<SurfaceIdentity>, size: nat, offset: int): Page
    requires size > 0
  {
    if |rows| > size then
      Page(rows[..size], EncodePageToken(rows[size - 1], offset + size), EstimateTotalCount(offset, size, None, true))
    else Page(rows, NO_TOKEN, EstimateTotalCount(offset, |rows|, None, false))
  }

  ghost function ListPage(t: Tables, filter: Filter, pageSize: int, token: PageToken): Page {
    var decoded := DecodePageToken(token);
    PageOf(Rows(t, filter, decoded), NormalizePageSize(pageSize), decoded.offset)
  }

  /** In the order of vendor ids, of one vendor in that of model ids. */
  predicate Precedes(a: SurfaceIdentity, b: SurfaceIdentity) {
    Less(a.vendorID, b.vendorID) || (a.vendorID == b.vendorID && Less(a.modelID, b.modelID))
  }

  /** What a request may list: the models the filter accepts, behind the bookmark if there is one. */
  ghost function Candidates(t: Tables, filter: Filter, bookmark: Option<SurfaceIdentity>): set<SurfaceIdentity> {
    set id | id in t.entries && FilterAccepts(t, id, filter) && (bookmark.Some? ==> Precedes(bookmark.value, id))
  }

  /** The page holds the next rows in order, fifty unless the request says how many, and never more than a
      hundred; a token follows exactly if there are more. */
  ghost predicate FillsPage(t: Tables, filter: Filter, pageSize: int, token: PageToken, page: Page) {
    var decoded := DecodePageToken(token);
    var rows := Candidates(t, filter, decoded.continuation);
    var skip := if decoded.continuation.Some? then 0 else decoded.offset;
    var bound := if pageSize <= 0 then 50 else if pageSize > 100 then 100 else pageSize;
    && |page.items| == (if |rows| <= skip then 0 else if |rows| - skip < bound then |rows| - skip else bound)
    && (forall i | 0 <= i < |page.items| ::
          page.items[i] in rows && |Earlier(rows, page.items[i])| == skip + i)
    && (page.next != NO_TOKEN <==> |rows| > skip + bound)
    && page.total == if |rows| > skip + bound then 0 else decoded.offset + |page.items|
  }

  ghost function Earlier(rows: set<SurfaceIdentity>, id: SurfaceIdentity): set<SurfaceIdentity> {
    set x | x in rows && Precedes(x, id)
  }

  lemma PrecedesIsLess(a: SurfaceIdentity, b: SurfaceIdentity)
    ensures Precedes(a, b) <==> IdentityLess(a, b)
  {
    LessIrreflexive(a.vendorID);
    hide Less;
  }

  lemma CandidatesAreRows(t: Tables, filter: Filter, bookmark: Option<SurfaceIdentity>)
    ensures Candidates(t, filter, bookmark) == After(Matching(t, filter), bookmark)
  {
    hide FilterAccepts, Precedes, IdentityLess;
    forall a, b ensures Precedes(a, b) <==> IdentityLess(a, b) { PrecedesIsLess(a, b); }
  }

  lemma {:induction false} ElementCount(s: seq<SurfaceIdentity>)
    requires Distinct(s)
    ensures |set x | x in s| == |s|
  {
    if s != [] {
      var init, last := s[..|s| - 1], s[|s| - 1];
      ElementCount(init);
      assert (set x | x in s) == (set x | x in init) + {last};
    }
  }

  /** Exactly k rows come before the row at k. */
  lemma RowsEarlier(ids: set<SurfaceIdentity>, rows: seq<SurfaceIdentity>, k: nat)
    requires Sorted(IdentityLess, rows) && (forall x :: x in rows <==> x in ids) && k < |rows|
    ensures |Earlier(ids, rows[k])| == k
  {
    IdentitiesAreOrdered();
    SortedIsDistinct(IdentityLess, rows);
    hide *;
    FirstAreDistinct(rows, k);
    ElementCount(rows[..k]);
    forall x ensures x in Earlier(ids, rows[k]) <==> x in rows[..k] { IsEarlier(ids, rows, k, x); }
    assert Earlier(ids, rows[k]) == set x | x in rows[..k];
  }

  lemma FirstAreDistinct(rows: seq<SurfaceIdentity>, k: nat)
    requires Distinct(rows) && k <= |rows|
    ensures Distinct(rows[..k])
  {
  }

  lemma IsEarlier(ids: set<SurfaceIdentity>, rows: seq<SurfaceIdentity>, k: nat, x: SurfaceIdentity)
    requires Sorted(IdentityLess, rows) && (forall y :: y in rows <==> y in ids) && k < |rows|
    ensures x in Earlier(ids, rows[k]) <==> x in rows[..k]
  {
    IdentitiesAreOrdered();
    PrecedesIsLess(x, rows[k]);
    hide IdentityLess, Precedes;
    if x in Earlier(ids, rows[k]) {
      var j :| 0 <= j < |rows| && rows[j] == x;
      assert j < k;
      assert rows[..k][j] == x;
    }
    if x in rows[..k] {
      var j :| 0 <= j < k && rows[..k][j] == x;
      assert rows[j] == x;
    }
  }

  lemma TokenOfRow(last: SurfaceIdentity, offset: int)
    requires TrimmedIdentity(last)
    ensures EncodePageToken(last, offset) != NO_TOKEN
  {
    hide TrimSpace;
  }

  /** Of rows in order, `PageOf` behind the offset fills the page. */
  lemma PageOfFills(ids: set<SurfaceIdentity>, all: seq<SurfaceIdentity>, skip: nat, size: nat, offset: int)
    requires Sorted(IdentityLess, all) && (forall x :: x in all <==> x in ids) && |all| == |ids| && size > 0
    requires forall id | id in ids :: TrimmedIdentity(id)
    requires offset >= 0
    ensures var page := PageOf(if skip <= |all| then all[skip..] else [], size, offset);
            && |page.items| == (if |ids| <= skip then 0 else if |ids| - skip < size then |ids| - skip else size)
            && (forall i | 0 <= i < |page.items| ::
                  page.items[i] in ids && |Earlier(ids, page.items[i])| == skip + i)
            && (page.next != NO_TOKEN <==> |ids| > skip + size)
            && page.total == if |ids| > skip + size then 0 else offset + |page.items|
  {
    hide IdentityLess, EncodePageToken, TrimmedIdentity, Precedes, Earlier;
    var rows := if skip <= |all| then all[skip..] else [];
    var page := PageOf(rows, size, offset);
    forall i | 0 <= i < |page.items|
      ensures page.items[i] in ids && |Earlier(ids, page.items[i])| == skip + i
    {
      assert page.items[i] == rows[i] == all[skip + i];
      RowsEarlier(ids, all, skip + i);
    }
    if |rows| > size {
      assert rows[size - 1] == all[skip + size - 1];
      TokenOfRow(rows[size - 1], offset + size);
    }
  }

  /** The listed page is filled as the request says. */
  lemma PageIsFilled(t: Tables, filter: Filter, pageSize: int, token: PageToken)
    requires forall id | id in t.entries :: TrimmedIdentity(id)
    ensures FillsPage(t, filter, pageSize, token, ListPage(t, filter, pageSize, token))
  {
    IdentitiesAreOrdered();
    OffsetIsNatural(token);
    var decoded := DecodePageToken(token);
    CandidatesAreRows(t, filter, decoded.continuation);
    hide FilterAccepts, IdentityLess, DecodePageToken, PageOf, TrimmedIdentity, Precedes, Enumerate, Earlier;
    var ids := After(Matching(t, filter), decoded.continuation);
    var all := Enumerate(IdentityLess, ids);
    var skip := if decoded.continuation.Some? then 0 else decoded.offset;
    assert Rows(t, filter, decoded) == if skip <= |all| then all[skip..] else [];
    PageOfFills(ids, all, skip, NormalizePageSize(pageSize), decoded.offset);
  }

  /** A bookmark is read trimmed, and not at all if a part of it is blank; a negative offset is none. */
  lemma TokenReads(token: PageToken)
    ensures var read := DecodePageToken(token);
            && read.offset == (if token.offset > 0 then token.offset else 0)
            && (read.continuation.Some?
                <==> && token.continuation.Some? && !Blank(token.continuation.value.vendorID)
                     && !Blank(token.continuation.value.modelID))
            && (read.continuation.Some? ==>
                  && read.continuation.value.vendorID == TrimSpace(token.continuation.value.vendorID)
                  && read.continuation.value.modelID == TrimSpace(token.continuation.value.modelID))
  {
    hide TrimSpace;
  }

  // ---- The entries of a page --------------------------------------------------------------------

  /** Direct observations first, then by source and by its model id. */
  predicate ObservationLess(a: ObservationKey, b: ObservationKey) {
    if a.isDirect != b.isDirect then a.isDirect
    else if a.sourceID != b.sourceID then Less(a.sourceID, b.sourceID)
    else Less(a.sourceModelID, b.sourceModelID)
  }

  lemma ObservationsAreOrdered()
    ensures StrictTotal(ObservationLess)
  {
    StringsAreOrdered();
    hide Less;
    forall a, b, c | ObservationLess(a, b) && ObservationLess(b, c) ensures ObservationLess(a, c) {}
  }

  function KeysOf(t: Tables, id: SurfaceIdentity): set<ObservationKey> {
    set r | r in t.observations && r.id == id :: r.key
  }

  ghost function OrderedKeys(t: Tables, id: SurfaceIdentity): seq<ObservationKey> {
    ObservationsAreOrdered();
    Enumerate(ObservationLess, KeysOf(t, id))
  }

  /** The observations under the keys, as they are read back. */
  function ReadBack(t: Tables, id: SurfaceIdentity, keys: seq<ObservationKey>): (r: seq<RegistrySource>)
    requires forall k | k in keys :: ObservationRow(id, k) in t.observations
    ensures |r| == |keys| && forall i | 0 <= i < |r| ::
                               r[i] == NormalizeRegistrySource(t.observations[ObservationRow(id, keys[i])])
  {
    seq(|keys|, i requires 0 <= i < |keys| => NormalizeRegistrySource(t.observations[ObservationRow(id, keys[i])]))
  }

  lemma KeysAreStored(t: Tables, id: SurfaceIdentity)
    ensures forall k | k in OrderedKeys(t, id) :: ObservationRow(id, k) in t.observations
    ensures forall k :: k in OrderedKeys(t, id) <==> ObservationRow(id, k) in t.observations
  {
    hide ObservationLess;
    forall k | k in KeysOf(t, id) ensures ObservationRow(id, k) in t.observations {
      var r :| r in t.observations && r.id == id && r.key == k;
      assert r == ObservationRow(id, k);
    }
    forall k | ObservationRow(id, k) in t.observations ensures k in KeysOf(t, id) {
      assert ObservationRow(id, k).key == k;
    }
  }

  /** The model as it is listed: its row, and its observations in order. */
  ghost function Listed(t: Tables, id: SurfaceIdentity): RegistryEntry
    requires id in t.entries
  {
    KeysAreStored(t, id);
    RegistryEntry(Some(t.entries[id].definition), NormalizeBadges(t.entries[id].badges),
                  NormalizePricing(t.entries[id].pricing),
                  ReadBack(t, id, OrderedKeys(t, id)))
  }

  method ListEntrySources(t: Tables, id: SurfaceIdentity) returns (sources: seq<RegistrySource>)
    requires id in t.entries
    ensures sources == Listed(t, id).sources
  {
    ObservationsAreOrdered();
    KeysAreStored(t, id);
    hide ObservationLess, NormalizeRegistrySource, NormalizeBadges, NormalizePricing;
    var keys := OrderBy(ObservationLess, KeysOf(t, id));
    sources := ReadBack(t, id, keys);
  }

  method EntriesOf(t: Tables, ids: seq<SurfaceIdentity>) returns (entries: seq<RegistryEntry>)
    requires forall id | id in ids :: id in t.entries
    ensures |entries| == |ids| && forall i | 0 <= i < |ids| :: entries[i] == Listed(t, ids[i])
  {
    hide NormalizeBadges, NormalizePricing, ReadBack, OrderedKeys;
    entries := [];
    for i := 0 to |ids|
      invariant |entries| == i && forall j | 0 <= j < i :: entries[j] == Listed(t, ids[j])
    {
      var row := t.entries[ids[i]];
      var badges := NormalizeDefinitionSourceBadges(row.badges);
      var sources := ListEntrySources(t, ids[i]);
      entries := entries + [RegistryEntry(Some(row.definition), badges, NormalizePricing(row.pricing), sources)];
    }
  }

  /** A model is listed with its definition, its known badges and its prices, trimmed. */
  lemma ListedKeeps(t: Tables, id: SurfaceIdentity)
    requires id in t.entries
    ensures var listed, row := Listed(t, id), t.entries[id];
            && listed.definition == Some(row.definition)
            && (forall b :: b in listed.badges <==> IsBadgeOf(row.badges, b))
            && (listed.pricing.Some? <==> Usable(row.pricing))
            && (forall field :: Price(listed.pricing, field) == Said(row.pricing, field))
            && PriceType(listed.pricing) == SaidType(row.pricing)
  {
    var row := t.entries[id];
    NormalizedBadges(row.badges);
    NormalizedPricing(row.pricing);
    NormalizedSays(row.pricing, Input);
    hide IsBadgeOf, NormalizeBadges, NormalizePricing, Usable, Said, SaidType, ReadBack, OrderedKeys;
    forall field ensures Price(NormalizePricing(row.pricing), field) == Said(row.pricing, field) {
      NormalizedSays(row.pricing, field);
    }
  }

  /** Direct observations first, of one kind in the order of source ids, of one source in that of model ids. */
  predicate ListedEarlier(a: ObservationKey, b: ObservationKey) {
    || (a.isDirect && !b.isDirect)
    || (a.isDirect == b.isDirect && Less(a.sourceID, b.sourceID))
    || (a.isDirect == b.isDirect && a.sourceID == b.sourceID && Less(a.sourceModelID, b.sourceModelID))
  }

  lemma SourcesInOrder(t: Tables, id: SurfaceIdentity)
    requires id in t.entries
    ensures var keys, sources := OrderedKeys(t, id), Listed(t, id).sources;
            && |sources| == |keys| && (forall i, j | 0 <= i < j < |keys| :: ListedEarlier(keys[i], keys[j]))
            && forall i | 0 <= i < |keys| :: ObservationRow(id, keys[i]) in t.observations
                 && sources[i] == NormalizeRegistrySource(t.observations[ObservationRow(id, keys[i])])
  {
    ObservationsAreOrdered();
    KeysAreStored(t, id);
    var keys := OrderedKeys(t, id);
    forall i, j | 0 <= i < j < |keys| ensures ListedEarlier(keys[i], keys[j]) {
      assert ObservationLess(keys[i], keys[j]);
    }
    hide ObservationLess, ListedEarlier, NormalizeRegistrySource, NormalizeBadges, NormalizePricing, OrderedKeys, Less;
    forall i | 0 <= i < |keys| ensures keys[i] in keys {}
  }

  /** Of a stored model every observation is listed once, in order, and nothing else. */
  lemma ListedSources(t: Tables, id: SurfaceIdentity)
    requires id in t.entries
    ensures Sorted(ObservationLess, OrderedKeys(t, id)) && Distinct(OrderedKeys(t, id))
    ensures |Listed(t, id).sources| == |KeysOf(t, id)|
    ensures forall s :: s in Listed(t, id).sources
                        <==> exists r ::
                               r in t.observations && r.id == id && s == NormalizeRegistrySource(t.observations[r])
  {
    ObservationsAreOrdered();
    KeysAreStored(t, id);
    var keys, sources := OrderedKeys(t, id), Listed(t, id).sources;
    SortedIsDistinct(ObservationLess, keys);
    assert sources == ReadBack(t, id, keys) && |keys| == |KeysOf(t, id)|;
    hide ObservationLess, NormalizeRegistrySource, OrderedKeys, Listed, KeysOf, NormalizeBadges, NormalizePricing;
    forall s | s in sources
      ensures exists r :: r in t.observations && r.id == id && s == NormalizeRegistrySource(t.observations[r])
    {
      var i :| 0 <= i < |sources| && sources[i] == s;
      assert keys[i] in keys;
      assert ObservationRow(id, keys[i]) in t.observations;
    }
    forall r | r in t.observations && r.id == id ensures NormalizeRegistrySource(t.observations[r]) in sources {
      assert r == ObservationRow(id, r.key);
      var i :| 0 <= i < |keys| && keys[i] == r.key;
      assert sources[i] == NormalizeRegistrySource(t.observations[r]);
    }
  }

  // ---- Which rows are cast ----------------------------------------------------------------------

  /** The rows behind the bookmark that the filter accepts and that cast. */
  ghost function Listable(t: Tables, filter: Filter, continuation: Option<SurfaceIdentity>): set<SurfaceIdentity> {
    set id | id in After(Matching(t, filter), continuation) && Castable(t.entries[id].definition, ClausesOf(filter))
  }

  ghost function Before(ids: set<SurfaceIdentity>, id: SurfaceIdentity): set<SurfaceIdentity> {
    set x | x in ids && IdentityLess(x, id)
  }

  /** How many rows the query fetches, those of the offset included. */
  function Fetched(token: PageToken, pageSize: int): int {
    (if token.continuation.None? then token.offset else 0) + NormalizePageSize(pageSize) + 1
  }

  /** The query cannot be answered without the casts of this row: nothing else rules it out, and the rows
      before it are too few. */
  ghost predicate Needed(t: Tables, filter: Filter, pageSize: int, token: PageToken, id: SurfaceIdentity) {
    var decoded := DecodePageToken(token);
    && id in t.entries
    && (decoded.continuation.Some? ==> IdentityLess(decoded.continuation.value, id))
    && Undecided(t, id, ClausesOf(filter))
    && |Before(Listable(t, filter, decoded.continuation), id)| < Fetched(decoded, pageSize)
  }

  /** The rows whose casts the database evaluates: those needed, and any others, as it orders the
      conditions. */
  ghost predicate Evaluates(t: Tables, filter: Filter, pageSize: int, token: PageToken, read: set<SurfaceIdentity>) {
    forall id | Needed(t, filter, pageSize, token, id) :: id in read
  }

  /** A cast that is evaluated fails. */
  ghost predicate Refuses(t: Tables, filter: Filter, read: set<SurfaceIdentity>) {
    exists id :: id in t.entries && id in read && !FilterReads(t.entries[id].definition, filter)
  }

  /** The rows a where condition selects, unless a cast fails. */
  method Select(t: Tables, clauses: seq<Clause>, continuation: Option<SurfaceIdentity>, read: set<SurfaceIdentity>)
    returns (found: Option<set<SurfaceIdentity>>)
    ensures found.None? <==> exists id :: id in t.entries && id in read && !Castable(t.entries[id].definition, clauses)
    ensures found.Some? ==> forall id :: id in found.value
                                         <==> id in t.entries && Passes(t, id, clauses)
                                              && (continuation.Some? ==> IdentityLess(continuation.value, id))
  {
    hide Passes, IdentityLess, Castable;
    var failing := set id | id in t.entries && id in read && !Castable(t.entries[id].definition, clauses);
    if failing != {} {
      var id :| id in failing;
      found := None;
    } else {
      assert forall id | id in t.entries && id in read && !Castable(t.entries[id].definition, clauses) :: id in failing;
      found := Some(set id | id in t.entries && Passes(t, id, clauses)
                             && (continuation.Some? ==> IdentityLess(continuation.value, id)));
    }
  }

  lemma {:induction false} Elements(s: seq<SurfaceIdentity>)
    ensures |set x | x in s| <= |s|
  {
    if s != [] {
      Elements(s[1..]);
      assert (set x | x in s) == {s[0]} + set x | x in s[1..];
    }
  }

  /** Fewer than k + 1 rows lie before the row at k. */
  lemma RowsBefore(rows: seq<SurfaceIdentity>, ids: set<SurfaceIdentity>, k: nat)
    requires Sorted(IdentityLess, rows) && k < |rows| && forall x | x in ids :: x in rows
    ensures |Before(ids, rows[k])| <= k
  {
    IdentitiesAreOrdered();
    hide IdentityLess;
    var first := set x | x in rows[..k];
    Elements(rows[..k]);
    forall x | x in Before(ids, rows[k]) ensures x in first {
      var j :| 0 <= j < |rows| && rows[j] == x;
      assert j < k;
      assert rows[..k][j] == x;
    }
    assert Before(ids, rows[k]) <= first;
    NoMore(Before(ids, rows[k]), first);
  }

  lemma {:induction false} NoMore<T>(a: set<T>, b: set<T>)
    requires a <= b
    ensures |a| <= |b|
  {
    assert b == a + (b - a);
  }

  lemma ItemOfPage(rows: seq<SurfaceIdentity>, size: nat, offset: int, id: SurfaceIdentity) returns (j: nat)
    requires size > 0 && id in PageOf(rows, size, offset).items
    ensures j < size && j < |rows| && rows[j] == id
  {
    hide EncodePageToken, EstimateTotalCount;
    var items := PageOf(rows, size, offset).items;
    j :| 0 <= j < |items| && items[j] == id;
  }

  /** The bound on the position of a row of a page. */
  lemma RowOfPage(t: Tables, filter: Filter, pageSize: int, token: PageToken, id: SurfaceIdentity)
    returns (rows: seq<SurfaceIdentity>, k: nat)
    requires id in ListPage(t, filter, pageSize, token).items
    ensures Sorted(IdentityLess, rows) && k < |rows| && rows[k] == id
    ensures forall x :: x in rows <==> x in After(Matching(t, filter), DecodePageToken(token).continuation)
    ensures k < Fetched(DecodePageToken(token), pageSize)
  {
    IdentitiesAreOrdered();
    OffsetIsNatural(token);
    hide FilterAccepts, IdentityLess, DecodePageToken, After, Matching, PageOf, NormalizePageSize, Enumerate;
    var decoded := DecodePageToken(token);
    rows := Enumerate(IdentityLess, After(Matching(t, filter), decoded.continuation));
    var j := ItemOfPage(Rows(t, filter, decoded), NormalizePageSize(pageSize), decoded.offset, id);
    k := if decoded.continuation.Some? then j else decoded.offset + j;
  }

  /** A query that is answered lists only rows that cast. */
  lemma ListedRowsCast(t: Tables, filter: Filter, pageSize: int, token: PageToken, read: set<SurfaceIdentity>)
    requires Evaluates(t, filter, pageSize, token, read) && !Refuses(t, filter, read)
    ensures forall id | id in ListPage(t, filter, pageSize, token).items ::
              id in t.entries && FilterReads(t.entries[id].definition, filter)
  {
    hide *;
    forall id | id in ListPage(t, filter, pageSize, token).items
      ensures id in t.entries && FilterReads(t.entries[id].definition, filter)
    {
      var rows, k := RowOfPage(t, filter, pageSize, token, id);
      ListedRowCasts(t, filter, pageSize, token, read, rows, k);
    }
  }

  lemma ListedRowCasts(t: Tables, filter: Filter, pageSize: int, token: PageToken, read: set<SurfaceIdentity>,
            rows: seq<SurfaceIdentity>, k: nat)
    requires Evaluates(t, filter, pageSize, token, read) && !Refuses(t, filter, read)
    requires Sorted(IdentityLess, rows) && k < |rows| && k < Fetched(DecodePageToken(token), pageSize)
    requires forall x :: x in rows <==> x in After(Matching(t, filter), DecodePageToken(token).continuation)
    ensures rows[k] in t.entries && FilterReads(t.entries[rows[k]].definition, filter)
  {
    hide FilterAccepts, FilterReads, IdentityLess, DecodePageToken, ClausesOf, Castable, Fetched, Satisfies, Casts;
    var id, continuation := rows[k], DecodePageToken(token).continuation;
    assert id in After(Matching(t, filter), continuation);
    ClausesMeanFilter(t, id, filter);
    RowsBefore(rows, Listable(t, filter, continuation), k);
    assert Needed(t, filter, pageSize, token, id);
  }

  lemma RowsAreStored(t: Tables, filter: Filter, continuation: Option<SurfaceIdentity>, items: seq<SurfaceIdentity>,
            rows: seq<SurfaceIdentity>)
    requires forall id | id in items :: id in rows
    requires forall id | id in rows :: id in After(Matching(t, filter), continuation)
    ensures forall id | id in items :: id in t.entries
  {
    hide FilterAccepts, IdentityLess;
  }

  /** Cuts the fetched rows, one more than the page holds, down to the page. */
  method Paged(rows: seq<SurfaceIdentity>, size: nat, offset: int) returns (page: Page)
    requires size > 0
    ensures page == PageOf(rows, size, offset) && forall id | id in page.items :: id in rows
  {
    hide EncodePageToken;
    var limited := if |rows| > size + 1 then rows[..size + 1] else rows;
    var hasMore := |limited| > size;
    var items := limited;
    if hasMore { items := limited[..size]; }
    var nextOffset := offset + |items|;
    var next := NO_TOKEN;
    if hasMore && |items| > 0 {
      next := EncodePageToken(items[|items| - 1], nextOffset);
    }
    page := Page(items, next, EstimateTotalCount(offset, |items|, None, hasMore));
  }

  datatype Response = Refused | Listing(page: Page, entries: seq<RegistryEntry>)

  /** One page: the identities it lists, which all cast, and their entries as they are stored; or the
      refusal of the database. */
  method List(t: Tables, filter: Filter, pageSize: int, token: PageToken, read: set<SurfaceIdentity>)
    returns (r: Response)
    requires Evaluates(t, filter, pageSize, token, read)
    ensures r.Refused? <==> Refuses(t, filter, read)
    ensures r.Listing? ==>
              && r.page == ListPage(t, filter, pageSize, token)
              && ((forall id | id in t.entries :: TrimmedIdentity(id))
                  ==> FillsPage(t, filter, pageSize, token, r.page))
              && (forall id | id in r.page.items :: id in t.entries && FilterReads(t.entries[id].definition, filter))
              && |r.entries| == |r.page.items|
              && forall i | 0 <= i < |r.entries| :: r.entries[i] == Listed(t, r.page.items[i])
  {
    IdentitiesAreOrdered();
    hide FilterAccepts, FilterReads, IdentityLess, DecodePageToken, EncodePageToken, Enumerate, Passes, Listed,
      Castable, Needed;
    var size := NormalizePageSize(pageSize);
    var decoded := DecodePageToken(token);
    var offset := decoded.offset;
    OffsetIsNatural(token);
    var clauses := BuildPredicate(filter);
    var selected := Select(t, clauses, decoded.continuation, read);
    if selected.None? { return Refused; }
    var found := selected.value;
    assert found == After(Matching(t, filter), decoded.continuation);
    var all := OrderBy(IdentityLess, found);
    var rows := all;
    if decoded.continuation.None? && offset > 0 {
      rows := if offset <= |rows| then rows[offset..] else [];
    }
    var page := Paged(rows, size, offset);
    RowsAreStored(t, filter, decoded.continuation, page.items, all);
    ListedRowsCast(t, filter, pageSize, token, read);
    hide *;
    if forall id | id in t.entries :: TrimmedIdentity(id) { PageIsFilled(t, filter, pageSize, token); }
    var entries := EntriesOf(t, page.items);
    r := Listing(page, entries);
  }

  lemma OffsetIsNatural(token: PageToken)
    ensures DecodePageToken(token).offset >= 0
  {
    hide NewSurfaceIdentity;
  }
}
