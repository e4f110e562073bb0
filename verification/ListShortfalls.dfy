/** Where the filters of the list query meet how definitions are stored: the key and the form of a life
    cycle status, and the casts of enumerations (store/codec.go, query_list.go). */
module ListShortfalls {
  import opened Text
  import opened Ordering
  import opened Slugs
  import opened EntryMerge
  import opened SourceAuthority
  import opened Identities
  import opened LikePattern
  import opened Registry
  import opened RegistryRuns
  import opened ListQuery

  const NO_FILTER: Filter := Filter([], "", "", "", [], "", [])

  // ---- The stored life cycle status -------------------------------------------------------------

  /** The names under which life cycle statuses are stored, in the order of their numbers. */
  const STATUS_NAMES: seq<string> := [
    "MODEL_LIFECYCLE_STATUS_ACTIVE", "MODEL_LIFECYCLE_STATUS_LEGACY", "MODEL_LIFECYCLE_STATUS_DEPRECATED",
    "MODEL_LIFECYCLE_STATUS_EOL", "MODEL_LIFECYCLE_STATUS_BLOCKED"]

  function PlaceOf(names: seq<string>, text: string): (n: nat)
    ensures n <= |names|
    ensures n > 0 ==> names[n - 1] == text
  {
    if names == [] then 0
    else if names[|names| - 1] == text then |names|
    else PlaceOf(names[..|names| - 1], text)
  }

  /** The status a definition is stored with, under its proto name; zero for none. */
  function StatusOf(d: ModelVersion): (n: nat)
    ensures n <= 5
  {
    PlaceOf(STATUS_NAMES, MemberText(d, "lifecycle_status"))
  }

  /** A number that is no status counts as none. */
  function KnownStatus(n: int): nat {
    if 1 <= n <= 5 then n else 0
  }

  lemma ExcludedAreKnown(statuses: seq<string>)
    ensures forall n | n in ExcludedStatuses(statuses) :: 1 <= n <= 5
  {
    assert |LIFECYCLE_STATUSES| == 5;
    hide TrimSpace, Lower, NumberOf;
  }

  /** The life cycle clause fails exactly on a number under `lifecycleStatus` that is to be excluded. */
  lemma LifecycleFailsIff(t: Tables, id: SurfaceIdentity, f: Filter)
    requires id in t.entries
    ensures var d := t.entries[id].definition;
            !Passes(t, id, ByLifecycle(f))
            <==> && "lifecycleStatus" in d.others
                 && AsInt(d.others["lifecycleStatus"]).Some?
                 && AsInt(d.others["lifecycleStatus"]).value in ExcludedStatuses(f.lifecycleStatusExclude)
  {
    LifecycleClause(t, id, f);
    ExcludedAreKnown(f.lifecycleStatusExclude);
    hide Passes, ByLifecycle, ExcludedStatuses, AsInt;
  }

  /** The clause keeps the model exactly when the filter does not exclude the stored status. */
  ghost predicate Agrees(t: Tables, id: SurfaceIdentity, f: Filter)
    requires id in t.entries
  {
    Passes(t, id, ByLifecycle(f)) <==> StatusOf(t.entries[id].definition) !in ExcludedStatuses(f.lifecycleStatusExclude)
  }

  function Digit(n: nat): string
    requires n <= 9
  {
    [('0' as int + n) as char]
  }

  lemma DigitStatus(n: nat)
    requires 1 <= n <= 5
    ensures LifecycleStatusToInt(Digit(n)) == n
  {
    var s := Digit(n);
    LowerFixed(s);
    TrimmedIsFixed(IsSpace, s);
    NamesAreLonger();
    hide TrimSpace, Lower, LIFECYCLE_STATUSES, NumberOf;
    NumberOfDigit(LIFECYCLE_STATUSES, n);
  }

  lemma NamesAreLonger()
    ensures |LIFECYCLE_STATUSES| == 5 && forall i | 0 <= i < |LIFECYCLE_STATUSES| :: |LIFECYCLE_STATUSES[i]| > 1
  {
  }

  lemma {:induction false} NumberOfDigit(names: seq<string>, n: nat)
    requires 1 <= n <= |names| <= 9 && forall i | 0 <= i < |names| :: |names[i]| > 1
    ensures NumberOf(names, Digit(n)) == n
  {
    if n < |names| { NumberOfDigit(names[..|names| - 1], n); }
  }

  lemma OnlyExcludes(n: nat)
    requires 1 <= n <= 5
    ensures ExcludedStatuses([Digit(n)]) == {n}
  {
    DigitStatus(n);
    hide LifecycleStatusToInt, Digit;
    assert Digit(n) in [Digit(n)];
  }

  /** The clause excludes by the stored status, for every filter, exactly when the number under the key it
      reads is that status. Of a definition without that key it excludes nothing, whatever the status. */
  lemma ExclusionAgreesIff(t: Tables, id: SurfaceIdentity)
    requires id in t.entries
    ensures var d := t.entries[id].definition;
            (forall f :: Agrees(t, id, f)) <==> KnownStatus(LifecycleOf(d)) == StatusOf(d)
    ensures "lifecycleStatus" !in t.entries[id].definition.others ==> forall f ::
              && Passes(t, id, ByLifecycle(f))
              && (Agrees(t, id, f)
                  <==> StatusOf(t.entries[id].definition) !in ExcludedStatuses(f.lifecycleStatusExclude))
  {
    hide Passes, ByLifecycle, ExcludedStatuses, AsInt, StatusOf;
    var d := t.entries[id].definition;
    forall f ensures Passes(t, id, ByLifecycle(f)) <==> LifecycleOf(d) !in ExcludedStatuses(f.lifecycleStatusExclude)
      ensures forall n | n in ExcludedStatuses(f.lifecycleStatusExclude) :: 1 <= n <= 5
    {
      LifecycleClause(t, id, f);
      ExcludedAreKnown(f.lifecycleStatusExclude);
    }
    var n := if StatusOf(d) > 0 then StatusOf(d) else KnownStatus(LifecycleOf(d));
    if n > 0 && KnownStatus(LifecycleOf(d)) != StatusOf(d) {
      OnlyExcludes(n);
      assert !Agrees(t, id, NO_FILTER.(lifecycleStatusExclude := [Digit(n)]));
    }
  }

  /** A blocked model as it is stored. */
  const BLOCKED: ModelVersion := ModelVersion("acme", "m1", "m1", 1, [1], [], [1], [1], None, [],
    map["lifecycle_status" := "MODEL_LIFECYCLE_STATUS_BLOCKED"])

  const ACME: SurfaceIdentity := SurfaceIdentity("acme", "m1")

  lemma AcmeIsStored(d: ModelVersion, outbox: bool)
    requires d.vendorID == "acme" && d.modelID == "m1"
    ensures var t := Run(Storing(d), outbox); t.entries.Keys == {ACME} && t.entries[ACME].definition == d
  {
    TrimmedIsFixed(IsSpace, "acme");
    TrimmedIsFixed(IsSpace, "m1");
    hide TrimSpace, Run, Storing;
    StoredAlone(d, ACME, outbox);
  }

  lemma BlockedTexts()
    ensures StatusOf(BLOCKED) == 5 && "lifecycleStatus" !in BLOCKED.others && LifecycleStatusToInt("blocked") == 5
  {
    LowerFixed("blocked");
    TrimmedIsFixed(IsSpace, "blocked");
    hide TrimSpace, Lower;
  }

  const NOT_BLOCKED: Filter := NO_FILTER.(lifecycleStatusExclude := ["blocked"])

  /** The filter asks for nothing but a category and life cycle statuses. */
  predicate OnlyEnums(f: Filter) {
    f.vendorIDs == [] && f.modelID == "" && f.badge == "" && f.query == "" && f.sourceIDs == []
  }

  lemma EnumsDecide(t: Tables, id: SurfaceIdentity, f: Filter)
    requires id in t.entries && OnlyEnums(f)
    ensures var d := t.entries[id].definition;
            FilterAccepts(t, id, f)
            <==> InCategory(d, f.category) && LifecycleOf(d) !in ExcludedStatuses(f.lifecycleStatusExclude)
  {
    NoBadge();
    TrimmedIsFixed(IsSpace, "");
    hide TrimSpace, NormalizeBadge, InCategory, LifecycleOf, ExcludedStatuses;
  }

  /** The page of a store with one model. */
  lemma LonePage(t: Tables, id: SurfaceIdentity, f: Filter, pageSize: int)
    requires t.entries.Keys == {id} && FilterAccepts(t, id, f)
    ensures ListPage(t, f, pageSize, NO_TOKEN).items == [id]
  {
    IdentitiesAreOrdered();
    hide FilterAccepts, IdentityLess, NormalizePageSize, EncodePageToken, EstimateTotalCount;
    assert After(Matching(t, f), None) == {id};
    var rows := Rows(t, f, NO_TOKEN);
    assert |rows| == 1;
    assert id in rows;
  }

  /** It is stored as blocked, blocked models are to be excluded, and the page lists it. */
  lemma BlockedIsListed(outbox: bool, pageSize: int)
    ensures var t := Run(Storing(BLOCKED), outbox);
            && t.entries.Keys == {ACME} && t.entries[ACME].definition == BLOCKED
            && StatusOf(BLOCKED) in ExcludedStatuses(NOT_BLOCKED.lifecycleStatusExclude)
            && ListPage(t, NOT_BLOCKED, pageSize, NO_TOKEN).items == [ACME]
  {
    AcmeIsStored(BLOCKED, outbox);
    hide *;
    var t := Run(Storing(BLOCKED), outbox);
    BlockedAccepted(t);
    LonePage(t, ACME, NOT_BLOCKED, pageSize);
  }

  lemma BlockedAccepted(t: Tables)
    requires t.entries.Keys == {ACME} && t.entries[ACME].definition == BLOCKED
    ensures FilterAccepts(t, ACME, NOT_BLOCKED)
    ensures StatusOf(BLOCKED) in ExcludedStatuses(NOT_BLOCKED.lifecycleStatusExclude)
  {
    BlockedTexts();
    hide BLOCKED, StatusOf, LifecycleStatusToInt, FilterAccepts, Passes, ByLifecycle, AsInt;
    assert "blocked" in NOT_BLOCKED.lifecycleStatusExclude;
    assert OnlyEnums(NOT_BLOCKED);
    EnumsDecide(t, ACME, NOT_BLOCKED);
    LifecycleFailsIff(t, ACME, NOT_BLOCKED);
    LifecycleClause(t, ACME, NOT_BLOCKED);
    NoCategory();
  }

  // ---- Names and numbers of filters -------------------------------------------------------------

  /** `n` is the place of the text among the names, counted from one, or the place it writes as a digit; -1 if it
      does neither. */
  ghost predicate IsNumberOf(names: seq<string>, s: string, n: int) {
    || (1 <= n <= |names| <= 9 && (names[n - 1] == s || (s !in names && s == Digit(n))))
    || (n == -1 && |names| <= 9 && s !in names && forall k | 1 <= k <= |names| :: s != Digit(k))
  }

  lemma {:induction false} NumberIs(names: seq<string>, s: string)
    requires |names| <= 9 && forall i | 0 <= i < |names| :: |names[i]| > 1
    requires Distinct(names)
    ensures IsNumberOf(names, s, NumberOf(names, s))
  {
    if names != [] {
      var init, last := names[..|names| - 1], names[|names| - 1];
      assert forall x :: x in names <==> x in init || x == last;
      NumberIs(init, s);
      if s != last && s == Digit(|names|) { forall x | x in names ensures x != s {} }
    }
  }

  lemma NamesAreApart()
    ensures |CATEGORIES| == 7 && Distinct(CATEGORIES) && forall i | 0 <= i < |CATEGORIES| :: |CATEGORIES[i]| > 1
    ensures |LIFECYCLE_STATUSES| == 5 && Distinct(LIFECYCLE_STATUSES)
  {
  }

  /** What the filters' names stand for, whatever their case and the whitespace around them. */
  lemma FilterNames(text: string)
    ensures IsNumberOf(["chat", "embedding", "rerank", "image_gen", "audio", "video", "moderation"],
                       TrimSpace(Lower(text)), CategoryFilterToInt(text))
    ensures IsNumberOf(["active", "legacy", "deprecated", "eol", "blocked"],
                       TrimSpace(Lower(text)), LifecycleStatusToInt(text))
  {
    NamesAreApart();
    NamesAreLonger();
    hide TrimSpace, Lower, NumberOf, IsNumberOf, Distinct;
    NumberIs(CATEGORIES, TrimSpace(Lower(text)));
    NumberIs(LIFECYCLE_STATUSES, TrimSpace(Lower(text)));
  }

  /** Sources are asked for by slug, and only the six listed ones; vendors by any slug that is not empty. */
  lemma IDsAskedFor(values: seq<string>, id: string)
    ensures id in KnownSourceIDs(values)
            <==> && id in ["github-models", "cerebras", "modelscope", "nvidia-integrate", "huggingface-hub",
                           "openrouter"]
                 && exists v :: v in values && VendorSlug(v) == id
    ensures id in NormalizedVendorIDs(values) <==> id != "" && exists v :: v in values && VendorSlug(v) == id
  {
    SixSources(id);
    hide VendorSlug, AUTHORITY;
  }

  lemma SixSources(id: string)
    ensures id in AUTHORITY
            <==> id in ["github-models", "cerebras", "modelscope", "nvidia-integrate", "huggingface-hub", "openrouter"]
  {
  }

  // ---- Numbers as texts -------------------------------------------------------------------------

  /** The decimal numeral of a number. */
  function Decimal(n: nat): string {
    if n <= 9 then Digit(n) else Decimal(n / 10) + Digit(n % 10)
  }

  lemma {:induction false} DecimalValue(n: nat)
    ensures Decimal(n) != "" && All(IsDigit, Decimal(n)) && DigitsValue(Decimal(n)) == n
  {
    var s := Decimal(n);
    if n <= 9 {
      assert s[..|s| - 1] == "";
    } else {
      DecimalValue(n / 10);
      assert s[..|s| - 1] == Decimal(n / 10);
    }
  }

  lemma NumeralFacts(s: string)
    requires s != "" && All(IsDigit, s)
    ensures IsTrimmed(IsBlank, s) && s[0] != '-' && s[0] != '+'
    ensures IsTrimmed(IsBlank, "-" + s) && ("-" + s)[1..] == s
  {
    assert IsDigit(s[0]) && IsDigit(s[|s| - 1]);
    assert ("-" + s)[|"-" + s| - 1] == s[|s| - 1];
  }

  function In32Bits(n: int): Option<int> {
    if -0x8000_0000 <= n < 0x8000_0000 then Some(n) else None
  }

  /** The cast reads the decimal numerals of 32 bits, with or without a minus sign, and refuses larger ones. */
  lemma NumeralsCast(n: nat)
    ensures AsInt(Decimal(n)) == In32Bits(n) && AsInt("-" + Decimal(n)) == In32Bits(-(n as int))
  {
    hide *;
    DecimalValue(n);
    DigitsCast(Decimal(n), n);
    SignedCast(Decimal(n), n);
  }

  lemma DigitsCast(s: string, n: nat)
    requires s != "" && All(IsDigit, s) && DigitsValue(s) == n
    ensures AsInt(s) == In32Bits(n)
  {
    NumeralFacts(s);
    TrimmedIsFixed(IsBlank, s);
    hide DigitsValue, Trim, IsTrimmed, All;
  }

  lemma SignedCast(s: string, n: nat)
    requires s != "" && All(IsDigit, s) && DigitsValue(s) == n
    ensures AsInt("-" + s) == In32Bits(-(n as int))
  {
    NumeralFacts(s);
    TrimmedIsFixed(IsBlank, "-" + s);
    hide DigitsValue, Trim, IsTrimmed, All;
  }

  // ---- The refused query ------------------------------------------------------------------------

  /** However the database orders the conditions, it refuses the query exactly when a row it needs does
      not cast; and it may refuse it exactly when some stored row does not. */
  lemma RefusalIff(t: Tables, f: Filter, pageSize: int, token: PageToken)
    ensures (forall read | Evaluates(t, f, pageSize, token, read) :: Refuses(t, f, read))
            <==> exists id :: Needed(t, f, pageSize, token, id) && !FilterReads(t.entries[id].definition, f)
    ensures (exists read :: Evaluates(t, f, pageSize, token, read) && Refuses(t, f, read))
            <==> exists id :: id in t.entries && !FilterReads(t.entries[id].definition, f)
  {
    hide FilterReads, Undecided, DecodePageToken, Fetched, Before, Listable, ClausesOf, IdentityLess;
    var least := set id | id in t.entries && Needed(t, f, pageSize, token, id);
    assert Evaluates(t, f, pageSize, token, least);
    assert Evaluates(t, f, pageSize, token, t.entries.Keys);
    if id :| Needed(t, f, pageSize, token, id) && !FilterReads(t.entries[id].definition, f) {
      forall read | Evaluates(t, f, pageSize, token, read) ensures Refuses(t, f, read) { assert id in read; }
    }
    if id :| id in t.entries && !FilterReads(t.entries[id].definition, f) {
      assert Refuses(t, f, t.entries.Keys);
    }
  }

  /** Categories are stored under their names. */
  predicate NamesCategories(t: Tables) {
    forall id | id in t.entries && "category" in t.entries[id].definition.others ::
      AsInt(t.entries[id].definition.others["category"]).None?
  }

  /** A model behind the bookmark that stores a category and passes whatever else casts. */
  ghost predicate Asked(t: Tables, f: Filter, token: PageToken, id: SurfaceIdentity) {
    var continuation := DecodePageToken(token).continuation;
    && id in t.entries && (continuation.Some? ==> IdentityLess(continuation.value, id))
    && "category" in t.entries[id].definition.others && Undecided(t, id, ClausesOf(f))
  }

  /** A filter by a known category never lists anything: the query is refused for certain exactly when
      one of the other conditions lets a model with a category through, and without one the page is empty. */
  lemma CategoryFilterFails(t: Tables, f: Filter, pageSize: int, token: PageToken)
    requires NamesCategories(t) && CategoryFilterToInt(f.category) >= 0
    ensures (forall read | Evaluates(t, f, pageSize, token, read) :: Refuses(t, f, read))
            <==> exists id :: Asked(t, f, token, id)
    ensures ListPage(t, f, pageSize, token).items == []
  {
    hide FilterReads, Undecided, DecodePageToken, Fetched, Before, Listable, ClausesOf, IdentityLess, ListPage, AsInt,
      CategoryFilterToInt, Matching;
    RefusalIff(t, f, pageSize, token);
    NothingMatches(t, f);
    NothingListed(t, f, pageSize, token);
    forall id
      ensures Needed(t, f, pageSize, token, id) && !FilterReads(t.entries[id].definition, f) <==> Asked(t, f, token, id)
    {
      NeededIsAsked(t, f, pageSize, token, id);
    }
  }

  lemma NothingMatches(t: Tables, f: Filter)
    requires NamesCategories(t) && CategoryFilterToInt(f.category) >= 0
    ensures Matching(t, f) == {}
  {
    hide CategoryFilterToInt, AsInt, LifecycleOf, ExcludedStatuses, Mentioned, TrimSpace, NormalizeBadge,
      NormalizedVendorIDs, KnownSourceIDs;
    forall id | id in t.entries ensures !FilterAccepts(t, id, f) {
      assert !InCategory(t.entries[id].definition, f.category);
    }
  }

  lemma NothingListed(t: Tables, f: Filter, pageSize: int, token: PageToken)
    requires Matching(t, f) == {}
    ensures ListPage(t, f, pageSize, token).items == []
  {
    IdentitiesAreOrdered();
    hide IdentityLess, Matching, EncodePageToken, EstimateTotalCount, NormalizePageSize, DecodePageToken;
    var decoded := DecodePageToken(token);
    assert After(Matching(t, f), decoded.continuation) == {};
    assert Rows(t, f, decoded) == [];
  }

  lemma NeededIsAsked(t: Tables, f: Filter, pageSize: int, token: PageToken, id: SurfaceIdentity)
    requires NamesCategories(t) && CategoryFilterToInt(f.category) >= 0 && Matching(t, f) == {}
    ensures Needed(t, f, pageSize, token, id) && !FilterReads(t.entries[id].definition, f) <==> Asked(t, f, token, id)
  {
    OffsetIsNatural(token);
    NoCategory();
    hide DecodePageToken, IdentityLess, CategoryFilterToInt, ExcludedStatuses, AsInt, Matching, ClausesOf;
    assert Before(Listable(t, f, DecodePageToken(token).continuation), id) == {};
    if id in t.entries {
      var c := CategoryIs(CategoryFilterToInt(f.category));
      CastingClauses(f, c);
      assert c in ByCategory(f);
      assert c in ClausesOf(f);
      if "category" !in t.entries[id].definition.others {
        assert !Satisfies(t, id, c);
        assert Casts(t.entries[id].definition, c);
      }
    }
  }

  /** A moderation model as it is stored. */
  const MODERATION: ModelVersion := ModelVersion("acme", "m1", "m1", 1, [1], [], [1], [1], None, [],
    map["category" := "MODEL_CATEGORY_MODERATION"])

  const MODERATION_ONLY: Filter := NO_FILTER.(category := "moderation")

  lemma ModerationTexts()
    ensures "category" in MODERATION.others && AsInt(MODERATION.others["category"]) == None
    ensures CategoryFilterToInt("moderation") == 7
  {
    LowerFixed("moderation");
    TrimmedIsFixed(IsSpace, "moderation");
    TrimmedIsFixed(IsBlank, "MODEL_CATEGORY_MODERATION");
    hide TrimSpace, Lower, DigitsValue, Trim;
    assert !All(IsDigit, "MODEL_CATEGORY_MODERATION") by { assert "MODEL_CATEGORY_MODERATION"[0] == 'M'; }
  }

  /** A filter by nothing but a category makes one clause. */
  lemma CategoryAlone(f: Filter)
    requires OnlyEnums(f) && f.lifecycleStatusExclude == []
    ensures forall c | c in ClausesOf(f) :: c == CategoryIs(CategoryFilterToInt(f.category))
  {
    TrimmedIsFixed(IsSpace, "");
    hide TrimSpace, NormalizeBadge, CategoryFilterToInt, LikeContainsPattern, NormalizedVendorIDs, KnownSourceIDs;
  }

  lemma ModerationAlone()
    ensures OnlyEnums(MODERATION_ONLY) && MODERATION_ONLY.lifecycleStatusExclude == []
    ensures MODERATION_ONLY.category == "moderation"
  {
  }

  /** Of a store with that one model, every request for moderation models is refused. */
  lemma ModerationIsRefused(outbox: bool, pageSize: int, read: set<SurfaceIdentity>)
    requires Evaluates(Run(Storing(MODERATION), outbox), MODERATION_ONLY, pageSize, NO_TOKEN, read)
    ensures Refuses(Run(Storing(MODERATION), outbox), MODERATION_ONLY, read)
  {
    AcmeIsStored(MODERATION, outbox);
    hide *;
    ModerationIsAsked(Run(Storing(MODERATION), outbox));
    CategoryFilterFails(Run(Storing(MODERATION), outbox), MODERATION_ONLY, pageSize, NO_TOKEN);
  }

  /** Nothing rules out a model whose category does not cast. */
  lemma AloneIsAsked(t: Tables, f: Filter)
    requires t.entries.Keys == {ACME} && "category" in t.entries[ACME].definition.others
    requires AsInt(t.entries[ACME].definition.others["category"]).None?
    requires forall c | c in ClausesOf(f) :: c == CategoryIs(CategoryFilterToInt(f.category))
    ensures NamesCategories(t) && Asked(t, f, NO_TOKEN, ACME)
  {
    hide AsInt, CategoryFilterToInt, ClausesOf, IdentityLess, Satisfies;
  }

  lemma ModerationIsAsked(t: Tables)
    requires t.entries.Keys == {ACME} && t.entries[ACME].definition == MODERATION
    ensures NamesCategories(t) && CategoryFilterToInt(MODERATION_ONLY.category) >= 0
    ensures Asked(t, MODERATION_ONLY, NO_TOKEN, ACME)
  {
    ModerationTexts();
    ModerationAlone();
    CategoryAlone(MODERATION_ONLY);
    hide *;
    AloneIsAsked(t, MODERATION_ONLY);
  }
}
