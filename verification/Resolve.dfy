/** Resolving a model id or alias to a stored model (store/query_resolve.go). */
module Resolve {
  import opened Text
  import opened Ordering
  import opened ModelIdentity
  import opened EntryMerge
  import opened Identities
  import opened Registry
  import opened RegistryRuns

  // ---- Errors -----------------------------------------------------------------------------------

  /** The errors a request can end in. `NoRows` is the driver's; `Wrapped` is an error with another
      one inside, as `fmt.Errorf` with `%w` makes it; the others are told apart by their message. */
  datatype Error = NoRows | Wrapped(cause: Error) | NotFound | Required | Ambiguous

  datatype Result<+T> = Ok(value: T) | Failed(error: Error)

  /** `errors.As`, which looks inside. */
  predicate IsDomainNotFound(e: Error) {
    match e
    case NotFound => true
    case Wrapped(cause) => IsDomainNotFound(cause)
    case _ => false
  }

  // ---- The queries ------------------------------------------------------------------------------

  datatype Lookup = Nothing | One(ref: SurfaceIdentity) | Many

  /** What `select ... where model_id = q` finds. */
  function ByModelID(t: Tables, vendorID: string, q: string): set<SurfaceIdentity> {
    set id | id in t.entries && id.modelID == q && (vendorID == "" || id.vendorID == vendorID)
  }

  /** What `select distinct ... where alias_value = q` finds. */
  function ByAlias(t: Tables, vendorID: string, q: string): set<SurfaceIdentity> {
    set r | r in t.aliases && r.alias.value == q && (vendorID == "" || r.id.vendorID == vendorID) :: r.id
  }

  function KeyOfRef(ref: SurfaceIdentity): SurfaceIdentity {
    SurfaceIdentity(TrimSpace(ref.vendorID), TrimSpace(ref.modelID))
  }

  method AppendUniqueModelRefs(items: seq<SurfaceIdentity>, ref: SurfaceIdentity) returns (r: seq<SurfaceIdentity>)
    ensures r == if exists x :: x in items && KeyOfRef(x) == KeyOfRef(ref) then items else items + [ref]
  {
    hide KeyOfRef;
    for i := 0 to |items|
      invariant forall j | 0 <= j < i :: KeyOfRef(items[j]) != KeyOfRef(ref)
    {
      if KeyOfRef(items[i]) == KeyOfRef(ref) { return items; }
    }
    r := items + [ref];
  }

  /** Stored identities are trimmed, so rows that differ are different models. */
  method ScanResolveModelRefs(rows: seq<SurfaceIdentity>) returns (refs: seq<SurfaceIdentity>)
    requires Distinct(rows) && forall x | x in rows :: TrimmedIdentity(x)
    ensures refs == rows
  {
    refs := [];
    for i := 0 to |rows|
      invariant refs == rows[..i]
    {
      hide TrimSpace;
      refs := AppendUniqueModelRefs(refs, rows[i]);
      forall x | x in rows[..i] ensures KeyOfRef(x) != KeyOfRef(rows[i]) {
        assert x in rows && rows[i] in rows;
      }
    }
  }

  /** The distinct rows of a query, in its order. */
  method Query(found: set<SurfaceIdentity>) returns (refs: seq<SurfaceIdentity>)
    requires forall x | x in found :: TrimmedIdentity(x)
    ensures |refs| == |found| && forall x :: x in refs <==> x in found
  {
    hide TrimmedIdentity;
    IdentitiesAreOrdered();
    var rows := OrderBy(IdentityLess, found);
    SortedIsDistinct(IdentityLess, rows);
    refs := ScanResolveModelRefs(rows);
  }

  function ResolveUniqueModelRef(matches: seq<SurfaceIdentity>): Lookup {
    if |matches| == 0 then Nothing else if |matches| == 1 then One(matches[0]) else Many
  }

  predicate Several(s: set<SurfaceIdentity>) {
    exists a, b :: a in s && b in s && a != b
  }

  /** No match, the only match, or more than one. */
  ghost predicate IsLookup(found: set<SurfaceIdentity>, r: Lookup) {
    match r
    case Nothing => found == {}
    case One(ref) => found == {ref}
    case Many => Several(found)
  }

  lemma UniqueOf(found: set<SurfaceIdentity>, refs: seq<SurfaceIdentity>)
    requires |refs| == |found| && forall x :: x in refs <==> x in found
    ensures IsLookup(found, ResolveUniqueModelRef(refs))
  {
    if |refs| == 0 {
      assert found == {};
    } else if |refs| == 1 {
      assert found == {refs[0]};
    } else {
      var rest := found - {refs[0]};
      assert |rest| == |found| - 1;
      var other :| other in rest;
    }
  }

  /** The only exact match, else the only alias match, else ambiguous or not found. */
  ghost predicate IsStaged(exact: set<SurfaceIdentity>, alias: set<SurfaceIdentity>, r: Result<SurfaceIdentity>) {
    match r
    case Ok(ref) => exact == {ref} || (exact == {} && alias == {ref})
    case Failed(Ambiguous) => Several(exact) || (exact == {} && Several(alias))
    case Failed(NotFound) => exact == {} && alias == {}
    case _ => false
  }

  // ---- One stored model -------------------------------------------------------------------------

  /** What the driver makes of the row of a query for one model. */
  function ScannedRow(t: Tables, id: SurfaceIdentity): Result<Row> {
    if id in t.entries then Ok(t.entries[id]) else Failed(NoRows)
  }

  /** Scanning an entry wraps whatever the driver reports. */
  function ScannedEntry(t: Tables, id: SurfaceIdentity): Result<Row> {
    match ScannedRow(t, id)
    case Ok(row) => Ok(row)
    case Failed(e) => Failed(Wrapped(e))
  }

  /** A missing model is recognised by comparing the error itself, not what is inside it. */
  function EntryOf(scanned: Result<Row>): Result<Row> {
    match scanned
    case Ok(row) => Ok(row)
    case Failed(e) => Failed(if e == NoRows then NotFound else e)
  }

  method ScanRegistryEntry(t: Tables, id: SurfaceIdentity) returns (r: Result<Row>)
    ensures r == ScannedEntry(t, id)
  {
    var row := ScannedRow(t, id);
    if row.Failed? { return Failed(Wrapped(row.error)); }
    r := row;
  }

  method GetRegistryEntry(t: Tables, vendorID0: string, modelID0: string) returns (r: Result<Row>)
    ensures var v, m := TrimSpace(vendorID0), TrimSpace(modelID0);
            r == if v == "" || m == "" then Failed(Required) else EntryOf(ScannedEntry(t, SurfaceIdentity(v, m)))
    ensures var id := SurfaceIdentity(TrimSpace(vendorID0), TrimSpace(modelID0));
            && (Blank(vendorID0) || Blank(modelID0) ==> r == Failed(Required))
            && (!Blank(vendorID0) && !Blank(modelID0) ==>
                  r == if id in t.entries then Ok(t.entries[id]) else Failed(Wrapped(NoRows)))
  {
    hide TrimSpace;
    var vendorID, modelID := TrimSpace(vendorID0), TrimSpace(modelID0);
    if vendorID == "" || modelID == "" { return Failed(Required); }
    r := ScanRegistryEntry(t, SurfaceIdentity(vendorID, modelID));
    if r.Failed? && r.error == NoRows { return Failed(NotFound); }
  }

  // ---- Resolve ----------------------------------------------------------------------------------

  /** With a vendor named: the stored model, else the lookup among the vendor's models if the error
      says that the model is missing, else that error. */
  ghost predicate IsScoped(t: Tables, v: string, q: string, entry: Result<Row>, r: Result<SurfaceIdentity>) {
    match entry
    case Ok(_) => r == Ok(SurfaceIdentity(v, q))
    case Failed(e) => if IsDomainNotFound(e) then IsStaged(ByModelID(t, v, q), ByAlias(t, v, q), r) else r == Failed(e)
  }

  ghost predicate IsAnswer(t: Tables, vendorID: string, modelIDOrAlias: string, r: Result<SurfaceIdentity>) {
    var q, v := TrimSpace(modelIDOrAlias), TrimSpace(vendorID);
    if q == "" then r == Failed(Required)
    else if v != "" then IsScoped(t, v, q, EntryOf(ScannedEntry(t, SurfaceIdentity(v, q))), r)
    else IsStaged(ByModelID(t, "", q), ByAlias(t, "", q), r)
  }

  /** An unscoped request, and a scoped one for a stored model, is answered as by a scan over the
      definitions; every other scoped request is not. */
  method ResolveModel(t: Tables, vendorID: string, modelIDOrAlias: string) returns (r: Result<SurfaceIdentity>)
    requires Consistent(t)
    ensures IsAnswer(t, vendorID, modelIDOrAlias, r)
    ensures !Blank(modelIDOrAlias) ==>
              (MeetsScan(t, vendorID, modelIDOrAlias, r)
               <==> Blank(vendorID) || SurfaceIdentity(TrimSpace(vendorID), TrimSpace(modelIDOrAlias)) in t.entries)
    ensures Blank(modelIDOrAlias) ==> r == Failed(Required)
    ensures !Blank(modelIDOrAlias) && !Blank(vendorID) ==>
              var id := SurfaceIdentity(TrimSpace(vendorID), TrimSpace(modelIDOrAlias));
              r == if id in t.entries then Ok(id) else Failed(Wrapped(NoRows))
  {
    hide Consistent, ByModelID, ByAlias, IsStaged, MeetsScan;
    TrimTwice(modelIDOrAlias);
    TrimTwice(vendorID);
    r := StagedResolve(t, vendorID, modelIDOrAlias);
    if !Blank(modelIDOrAlias) {
      if Blank(vendorID) { UnscopedMeetsScan(t, vendorID, modelIDOrAlias, r); }
      else { ScopedMeetsScanIff(t, vendorID, modelIDOrAlias, r); }
    }
  }

  method StagedResolve(t: Tables, vendorID: string, modelIDOrAlias: string) returns (r: Result<SurfaceIdentity>)
    requires Consistent(t)
    ensures IsAnswer(t, vendorID, modelIDOrAlias, r)
  {
    TrimTwice(modelIDOrAlias);
    TrimTwice(vendorID);
    hide TrimSpace, Consistent, ByModelID, ByAlias, IsStaged;
    var q, v := TrimSpace(modelIDOrAlias), TrimSpace(vendorID);
    if q == "" { return Failed(Required); }
    if v != "" {
      var entry := GetRegistryEntry(t, v, q);
      if entry.Ok? { return Ok(SurfaceIdentity(v, q)); }
      if !IsDomainNotFound(entry.error) { return Failed(entry.error); }
    }
    r := ResolveByIDThenAlias(t, v, q);
  }

  method ResolveByIDThenAlias(t: Tables, v: string, q: string) returns (r: Result<SurfaceIdentity>)
    requires Consistent(t)
    ensures IsStaged(ByModelID(t, v, q), ByAlias(t, v, q), r)
  {
    FoundAreTrimmed(t, v, q);
    hide Consistent, TrimmedIdentity, ByModelID, ByAlias, IsLookup, IsStaged, ResolveUniqueModelRef;
    var exactMatches := Query(ByModelID(t, v, q));
    UniqueOf(ByModelID(t, v, q), exactMatches);
    var exact := ResolveUniqueModelRef(exactMatches);
    if exact != Nothing {
      StageIsStaged(ByModelID(t, v, q), ByAlias(t, v, q), exact, Nothing);
      return Stage(exact, Nothing);
    }
    var aliasMatches := Query(ByAlias(t, v, q));
    UniqueOf(ByAlias(t, v, q), aliasMatches);
    var alias := ResolveUniqueModelRef(aliasMatches);
    StageIsStaged(ByModelID(t, v, q), ByAlias(t, v, q), Nothing, alias);
    r := Stage(Nothing, alias);
  }

  function Stage(exact: Lookup, alias: Lookup): Result<SurfaceIdentity> {
    match exact
    case One(ref) => Ok(ref)
    case Many => Failed(Ambiguous)
    case Nothing =>
      match alias
      case Nothing => Failed(NotFound)
      case One(ref) => Ok(ref)
      case Many => Failed(Ambiguous)
  }

  lemma StageIsStaged(exact: set<SurfaceIdentity>, alias: set<SurfaceIdentity>, a: Lookup, b: Lookup)
    requires IsLookup(exact, a) && (a.Nothing? ==> IsLookup(alias, b))
    ensures IsStaged(exact, alias, Stage(a, b))
  {
  }

  lemma FoundAreTrimmed(t: Tables, v: string, q: string)
    requires Consistent(t)
    ensures forall id | id in ByModelID(t, v, q) :: TrimmedIdentity(id)
    ensures forall id | id in ByAlias(t, v, q) :: TrimmedIdentity(id)
  {
    hide IdentityOf, TrimmedIdentity, CleanAliases, AliasesMatch, ObservationsMatch;
    forall id | id in t.entries ensures TrimmedIdentity(id) { IdentitiesAreTrimmed(Some(t.entries[id].definition)); }
    AliasesHaveEntries(t);
  }

  lemma AliasesHaveEntries(t: Tables)
    requires AliasesMatch(t)
    ensures forall r | r in t.aliases :: r.id in t.entries
  {
    hide CleanAliases;
  }

  // ---- The reference: a scan over the stored definitions ----------------------------------------

  predicate Named(d: ModelVersion, q: string) {
    exists a :: a in d.aliases && TrimSpace(a.value) == q
  }

  predicate OfVendor(id: SurfaceIdentity, vendorID: string) {
    vendorID == "" || id.vendorID == vendorID
  }

  function DefinitionsWithID(t: Tables, v: string, q: string): set<SurfaceIdentity> {
    set id | id in t.entries && OfVendor(id, v) && TrimSpace(t.entries[id].definition.modelID) == q
  }

  /** The models whose stored definition lists the alias. */
  function DefinitionsNamed(t: Tables, v: string, q: string): set<SurfaceIdentity> {
    set id | id in t.entries && OfVendor(id, v) && Named(t.entries[id].definition, q)
  }

  /** What a request is for: among the stored definitions, of the vendor if one is named, the only one
      with that id, else the only one with that alias, else ambiguous or not found. */
  ghost predicate MeetsScan(t: Tables, vendorID: string, modelIDOrAlias: string, r: Result<SurfaceIdentity>) {
    var q, v := TrimSpace(modelIDOrAlias), TrimSpace(vendorID);
    IsStaged(DefinitionsWithID(t, v, q), DefinitionsNamed(t, v, q), r)
  }

  lemma CleanAliasNamed(d: ModelVersion, q: string)
    requires q != ""
    ensures Named(d, q) <==> exists a :: a in CleanAliases(d.aliases) && a.value == q
  {
    hide TrimSpace;
    if Named(d, q) {
      var b :| b in d.aliases && TrimSpace(b.value) == q;
      assert CleanAlias(b) == Some(Alias.Alias(b.kind, q));
      assert Alias.Alias(b.kind, q) in CleanAliases(d.aliases);
    }
  }

  lemma EntriesAreScan(t: Tables, v: string, q: string)
    requires Keyed(t)
    ensures ByModelID(t, v, q) == DefinitionsWithID(t, v, q)
  {
    hide TrimSpace;
  }

  /** The alias table answers for the definitions. */
  lemma AliasTableIsScan(t: Tables, v: string, q: string)
    requires AliasesMatch(t) && q != ""
    ensures ByAlias(t, v, q) == DefinitionsNamed(t, v, q)
  {
    forall id ensures id in ByAlias(t, v, q) <==> id in DefinitionsNamed(t, v, q) {
      if id in t.entries { CleanAliasNamed(t.entries[id].definition, q); }
      hide CleanAliases, Named;
      if id in DefinitionsNamed(t, v, q) {
        var a :| a in CleanAliases(t.entries[id].definition.aliases) && a.value == q;
        assert AliasRow(id, a) in t.aliases;
      }
    }
  }

  lemma UnscopedMeetsScan(t: Tables, vendorID: string, q: string, r: Result<SurfaceIdentity>)
    requires Consistent(t) && Blank(vendorID) && !Blank(q) && IsAnswer(t, vendorID, q, r)
    ensures MeetsScan(t, vendorID, q, r)
  {
    hide TrimSpace, IsStaged, Keyed, AliasesMatch, ObservationsMatch, DefinitionsNamed, DefinitionsWithID, ByModelID,
      ByAlias;
    AliasTableIsScan(t, "", TrimSpace(q));
    EntriesAreScan(t, "", TrimSpace(q));
  }

  /** The models of a vendor with one id are at most one: the stored one. */
  lemma ExactOfVendor(t: Tables, v: string, q: string)
    requires Keyed(t) && v != ""
    ensures DefinitionsWithID(t, v, q) == if SurfaceIdentity(v, q) in t.entries then {SurfaceIdentity(v, q)} else {}
  {
    EntriesAreScan(t, v, q);
    hide DefinitionsWithID, Keyed;
  }

  /** Naming the vendor works exactly for the ids of stored models. Any other request, be it for an
      alias of the vendor's models or for a missing one, ends in the driver's error: the scan wraps
      it, so that comparing it with the driver's own finds no missing model. */
  lemma ScopedMeetsScanIff(t: Tables, vendorID: string, q: string, r: Result<SurfaceIdentity>)
    requires Consistent(t) && !Blank(vendorID) && !Blank(q) && IsAnswer(t, vendorID, q, r)
    ensures var id := SurfaceIdentity(TrimSpace(vendorID), TrimSpace(q));
            && (MeetsScan(t, vendorID, q, r) <==> id in t.entries)
            && (id !in t.entries ==> r == Failed(Wrapped(NoRows)))
  {
    hide TrimSpace, Keyed, AliasesMatch, ObservationsMatch, DefinitionsNamed, DefinitionsWithID, ByModelID, ByAlias;
    ExactOfVendor(t, TrimSpace(vendorID), TrimSpace(q));
  }

  /** The wrapping is all that stands in the way: read from the bare scan, the entry would lead every
      scoped request to the answer of the scan. */
  lemma BareScanWouldResolve(t: Tables, vendorID: string, q: string, r: Result<SurfaceIdentity>)
    requires Consistent(t) && !Blank(vendorID) && !Blank(q)
    requires var v, m := TrimSpace(vendorID), TrimSpace(q);
             IsScoped(t, v, m, EntryOf(ScannedRow(t, SurfaceIdentity(v, m))), r)
    ensures MeetsScan(t, vendorID, q, r)
  {
    hide TrimSpace, Keyed, AliasesMatch, ObservationsMatch, DefinitionsNamed, DefinitionsWithID, ByModelID, ByAlias;
    ExactOfVendor(t, TrimSpace(vendorID), TrimSpace(q));
    AliasTableIsScan(t, TrimSpace(vendorID), TrimSpace(q));
    EntriesAreScan(t, TrimSpace(vendorID), TrimSpace(q));
  }

  /** In every reachable state a request is answered as by the scan exactly if it names no vendor, or
      the vendor stores a model with that very id. */
  lemma ResolvesAsScanIff(ops: seq<Op>, outbox: bool, vendorID: string, q: string, r: Result<SurfaceIdentity>)
    requires !Blank(q) && IsAnswer(Run(ops, outbox), vendorID, q, r)
    ensures MeetsScan(Run(ops, outbox), vendorID, q, r)
            <==> Blank(vendorID) || SurfaceIdentity(TrimSpace(vendorID), TrimSpace(q)) in Run(ops, outbox).entries
  {
    var t := Run(ops, outbox);
    RunsAreConsistent(ops, outbox);
    hide Run, TrimSpace, IsAnswer, MeetsScan, Consistent;
    if Blank(vendorID) { UnscopedMeetsScan(t, vendorID, q, r); } else { ScopedMeetsScanIff(t, vendorID, q, r); }
  }

  /** The answer is unique. */
  lemma AnswerIsUnique(t: Tables, vendorID: string, q: string, a: Result<SurfaceIdentity>, b: Result<SurfaceIdentity>)
    requires IsAnswer(t, vendorID, q, a) && IsAnswer(t, vendorID, q, b)
    ensures a == b
  {
    hide TrimSpace, ByModelID, ByAlias;
    var v, m := TrimSpace(vendorID), TrimSpace(q);
    StagedIsUnique(ByModelID(t, v, m), ByAlias(t, v, m), a, b);
  }

  lemma StagedIsUnique(exact: set<SurfaceIdentity>, alias: set<SurfaceIdentity>, a: Result<SurfaceIdentity>,
            b: Result<SurfaceIdentity>)
    ensures IsStaged(exact, alias, a) && IsStaged(exact, alias, b) ==> a == b
  {
    if IsStaged(exact, alias, a) && IsStaged(exact, alias, b) {
      if a.Ok? { assert a.value in exact || a.value in alias; }
      if b.Ok? { assert b.value in exact || b.value in alias; }
    }
  }

  // ---- A request that is lost -------------------------------------------------------------------

  const FLAGSHIP: ModelVersion :=
    ModelVersion("acme", "m1", "m1", 1, [1], [], [1], [1], None, [Alias.Alias(AliasKind.Stable, "m")], map[])

  lemma FlagshipIsStored(outbox: bool)
    ensures var t := Run(Storing(FLAGSHIP), outbox); t.entries.Keys == {SurfaceIdentity("acme", "m1")}
    ensures Run(Storing(FLAGSHIP), outbox).entries[SurfaceIdentity("acme", "m1")].definition == FLAGSHIP
  {
    TrimmedIsFixed(IsSpace, "acme");
    TrimmedIsFixed(IsSpace, "m1");
    hide TrimSpace, Run, Storing;
    StoredAlone(FLAGSHIP, SurfaceIdentity("acme", "m1"), outbox);
  }

  /** The vendor stores a model with that very alias, the scan finds it, an unscoped request finds it,
      and the request that names the vendor ends in an error. */
  lemma ScopedAliasIsLost(outbox: bool, r: Result<SurfaceIdentity>)
    requires IsAnswer(Run(Storing(FLAGSHIP), outbox), "acme", "m", r)
    ensures r == Failed(Wrapped(NoRows))
    ensures MeetsScan(Run(Storing(FLAGSHIP), outbox), "acme", "m", Ok(SurfaceIdentity("acme", "m1")))
    ensures IsAnswer(Run(Storing(FLAGSHIP), outbox), "", "m", Ok(SurfaceIdentity("acme", "m1")))
  {
    var t, id := Run(Storing(FLAGSHIP), outbox), SurfaceIdentity("acme", "m1");
    FlagshipIsStored(outbox);
    RunsAreConsistent(Storing(FLAGSHIP), outbox);
    FlagshipTexts();
    hide Run, TrimSpace, Keyed, AliasesMatch, ObservationsMatch, ByModelID, ByAlias, Named, Storing, FLAGSHIP;
    FoundOnce(t, id, "acme", "m");
    FoundOnce(t, id, "", "m");
    AliasTableIsScan(t, "", "m");
    EntriesAreScan(t, "", "m");
    hide DefinitionsWithID, DefinitionsNamed;
    ScopedMeetsScanIff(t, "acme", "m", r);
  }

  lemma FlagshipTexts()
    ensures TrimSpace("acme") == "acme" && TrimSpace("m1") == "m1" && TrimSpace("m") == "m" && TrimSpace("") == ""
    ensures FLAGSHIP.modelID == "m1" && Named(FLAGSHIP, "m") && "m" != "" && "m" != "m1" && "acme" != ""
  {
    TrimmedIsFixed(IsSpace, "acme");
    TrimmedIsFixed(IsSpace, "m1");
    TrimmedIsFixed(IsSpace, "m");
    hide TrimSpace;
    assert FLAGSHIP.aliases[0] in FLAGSHIP.aliases;
  }

  /** The only model stored is the only one found by a name that is not its id. */
  lemma FoundOnce(t: Tables, id: SurfaceIdentity, v: string, q: string)
    requires t.entries.Keys == {id} && OfVendor(id, v)
    requires Named(t.entries[id].definition, q) && TrimSpace(t.entries[id].definition.modelID) != q
    ensures DefinitionsNamed(t, v, q) == {id} && DefinitionsWithID(t, v, q) == {}
  {
    hide TrimSpace, Named;
  }
}
