/** What every run of upserts and deletes keeps: the event log replays to the table, versions count
    the updates of a lifetime, and the alias and observation rows match their entries. */
module RegistryRuns {
  import opened Text
  import opened Slugs
  import opened EntryMerge
  import opened CollectedSources
  import opened AuthorityFold
  import opened Identities
  import opened RegistryEntries
  import opened Registry

  datatype Op = UpsertOp(entry: Option<RegistryEntry>) | DeleteOp(id: SurfaceIdentity)

  /** A transaction that fails is rolled back. */
  function Step(t: Tables, op: Op, outbox: bool): Tables {
    match op
    case UpsertOp(entry) => (match Upsert(t, entry, outbox) case None => t case Some(after) => after)
    case DeleteOp(id) => Delete(t, id, outbox)
  }

  function Run(ops: seq<Op>, outbox: bool): Tables {
    if ops == [] then EMPTY else Step(Run(ops[..|ops| - 1], outbox), ops[|ops| - 1], outbox)
  }

  // ---- What the events say ----------------------------------------------------------------------

  type Contents = map<SurfaceIdentity, ModelVersion>

  function ContentsOf(t: Tables): Contents {
    map id | id in t.entries :: t.entries[id].definition
  }

  /** A consumer that keeps a copy: created and updated set, deleted removes, by the identity of the
      definition the event carries. */
  function Apply(m: Contents, e: Event): Contents {
    match IdentityOf(Some(e.definition))
    case None => m
    case Some(id) => if e.mutation == Deleted then m - {id} else m[id := e.definition]
  }

  function Replay(events: seq<Event>): Contents {
    if events == [] then map[] else Apply(Replay(events[..|events| - 1]), events[|events| - 1])
  }

  /** The version of an identity after one more of its events; nothing if the event is out of turn.
      Version zero means that the identity does not exist. */
  function Advance(version: Option<nat>, e: Event): Option<nat> {
    match version
    case None => None
    case Some(v) =>
      match e.mutation
      case Created => if v == 0 && e.version == 1 then Some(1) else None
      case Updated => if v > 0 && e.version == v + 1 then Some(v + 1) else None
      case Deleted => if v > 0 && e.version == v then Some(0) else None
  }

  function VersionOf(events: seq<Event>, id: SurfaceIdentity): Option<nat> {
    if events == [] then Some(0) else
      var before, last := VersionOf(events[..|events| - 1], id), events[|events| - 1];
      if IdentityOf(Some(last.definition)) == Some(id) then Advance(before, last) else before
  }

  function Generation(t: Tables, id: SurfaceIdentity): nat {
    if id in t.entries then t.entries[id].generation else 0
  }

  // ---- The invariant ----------------------------------------------------------------------------

  ghost predicate Keyed(t: Tables) {
    forall id | id in t.entries ::
      IdentityOf(Some(t.entries[id].definition)) == Some(id) && t.entries[id].generation > 0
  }

  /** The alias rows are the distinct trimmed aliases of the stored definitions. */
  ghost predicate AliasesMatch(t: Tables) {
    forall r :: r in t.aliases <==> r.id in t.entries && r.alias in CleanAliases(t.entries[r.id].definition.aliases)
  }

  /** The row fits its primary key and the constraints of the table. */
  predicate IsRow(r: ObservationRow, o: RegistrySource) {
    KeyOfObservation(o) == r.key && r.key.sourceID != "" && r.key.sourceModelID != ""
  }

  /** Observations belong to entries and satisfy the constraints of their table. */
  ghost predicate ObservationsMatch(t: Tables) {
    forall r | r in t.observations :: r.id in t.entries && IsRow(r, t.observations[r])
  }

  ghost predicate Logged(t: Tables) {
    && Replay(t.events) == ContentsOf(t)
    && forall id :: VersionOf(t.events, id) == Some(Generation(t, id))
  }

  ghost predicate Consistent(t: Tables) {
    Keyed(t) && AliasesMatch(t) && ObservationsMatch(t)
  }

  lemma EventSnoc(events: seq<Event>, e: Event)
    ensures Replay(events + [e]) == Apply(Replay(events), e)
    ensures forall id :: VersionOf(events + [e], id)
                         == if IdentityOf(Some(e.definition)) == Some(id) then Advance(VersionOf(events, id), e)
                             else VersionOf(events, id)
  {
    hide IdentityOf, Apply, Advance;
    assert (events + [e])[..|events + [e]| - 1] == events;
  }

  lemma {:induction false} InsertedRows(rows: Observations, id: SurfaceIdentity, sources: seq<RegistrySource>)
    requires forall s | s in sources :: s.sourceID != ""
    requires forall k :: ObservationRow(id, k) !in rows
    requires DistinctKeys(sources)
    ensures var out := InsertObservations(rows, id, sources);
            && (out.Some? <==> forall s | s in sources :: s.sourceModelID != "")
            && (out.Some? ==> && (forall r :: r in out.value <==> r in rows || (r.id == id && Observed(sources, r.key)))
                              && (forall r | r in rows :: out.value[r] == rows[r])
                              && (forall r | r in out.value && r.id == id ::
                                    IsRow(r, out.value[r]) && out.value[r] in sources))
    decreases |sources|
  {
    if sources != [] {
      var init, last := sources[..|sources| - 1], sources[|sources| - 1];
      assert forall s :: s in sources <==> s in init || s == last;
      InsertedRows(rows, id, init);
      LastKeyIsNew(sources);
      forall k ensures Observed(sources, k) <==> Observed(init, k) || KeyOfObservation(last) == k {
        if KeyOfObservation(last) == k { assert last in sources; }
      }
    }
  }

  lemma LastKeyIsNew(sources: seq<RegistrySource>)
    requires DistinctKeys(sources) && sources != []
    ensures !Observed(sources[..|sources| - 1], KeyOfObservation(sources[|sources| - 1]))
  {
    hide KeyOfObservation;
    var init := sources[..|sources| - 1];
    forall s | s in init ensures KeyOfObservation(s) != KeyOfObservation(sources[|sources| - 1]) {
      var i :| 0 <= i < |init| && init[i] == s;
      assert sources[i] == s;
    }
  }

  lemma {:induction false} NormalizedAreNamed(sources: seq<RegistrySource>)
    ensures forall s | s in NormalizeObservations(sources) :: s.sourceID != ""
    decreases |sources|
  {
    hide NormalizeRegistrySource;
    if sources != [] { NormalizedAreNamed(sources[..|sources| - 1]); }
  }

  /** Replacing an entry's observations: it fails exactly on a missing source model id, and leaves
      one row per distinct observation. */
  lemma ReplacedRows(rows: Observations, id: SurfaceIdentity, sources: seq<RegistrySource>)
    ensures var out, normal := ReplacedObservations(rows, id, sources), NormalizeObservations(sources);
            && (out.Some? <==> forall s | s in normal :: s.sourceModelID != "")
            && (out.Some?
                ==> && (forall r :: r in out.value <==> if r.id == id then Observed(normal, r.key) else r in rows)
                              && (forall r | r in rows && r.id != id :: out.value[r] == rows[r])
                              && (forall r | r in out.value && r.id == id ::
                                    IsRow(r, out.value[r]) && out.value[r] in normal))
  {
    ObservationsAreDistinct(sources);
    NormalizedAreNamed(sources);
    hide NormalizeObservations, InsertObservations, Observed, DistinctKeys;
    InsertedRows(ObservationsWithout(rows, id), id, NormalizeObservations(sources));
  }

  /** An upsert keeps every entry under its identity and replaces the aliases of its own. */
  lemma UpsertKeepsRows(t: Tables, entry: Option<RegistryEntry>, outbox: bool)
    requires Keyed(t) && AliasesMatch(t) && Upsert(t, entry, outbox).Some?
    ensures var after := Upsert(t, entry, outbox).value; Keyed(after) && AliasesMatch(after)
  {
    hide Keyed, AliasesMatch, Upsert;
    UpsertKeepsKeys(t, entry, outbox);
    UpsertKeepsAliases(t, entry, outbox);
  }

  lemma UpsertKeepsKeys(t: Tables, entry: Option<RegistryEntry>, outbox: bool)
    requires Keyed(t) && Upsert(t, entry, outbox).Some?
    ensures Keyed(Upsert(t, entry, outbox).value)
  {
    DefinitionPresent(entry.value);
    hide IdentityOf, CleanAliases, ReplacedObservations, NormalizeBadges, NormalizePricing;
    assert entry.value.definition == Some(entry.value.definition.value);
  }

  lemma UpsertKeepsAliases(t: Tables, entry: Option<RegistryEntry>, outbox: bool)
    requires AliasesMatch(t) && Upsert(t, entry, outbox).Some?
    ensures AliasesMatch(Upsert(t, entry, outbox).value)
  {
    DefinitionPresent(entry.value);
    hide IdentityOf, CleanAliases, ReplacedObservations, NormalizeBadges, NormalizePricing;
  }

  lemma UpsertReplaces(t: Tables, entry: Option<RegistryEntry>, outbox: bool)
    requires Upsert(t, entry, outbox).Some?
    ensures entry.Some? && IdentityOf(entry.value.definition).Some?
    ensures var after, id := Upsert(t, entry, outbox).value, IdentityOf(entry.value.definition).value;
            && after.entries.Keys == t.entries.Keys + {id}
            && ReplacedObservations(t.observations, id, entry.value.sources) == Some(after.observations)
  {
    hide IdentityOf, CleanAliases, ReplacedObservations, NormalizeBadges, NormalizePricing;
  }

  lemma UpsertKeepsConsistent(t: Tables, entry: Option<RegistryEntry>, outbox: bool)
    requires Consistent(t) && Upsert(t, entry, outbox).Some?
    ensures Consistent(Upsert(t, entry, outbox).value)
  {
    UpsertKeepsRows(t, entry, outbox);
    UpsertReplaces(t, entry, outbox);
    hide Upsert, IdentityOf, ReplacedObservations, Observed, NormalizeObservations, Keyed, AliasesMatch;
    ReplacedRows(t.observations, IdentityOf(entry.value.definition).value, entry.value.sources);
  }

  /** One more event of `id`, in turn, and the matching change of its entry. */
  lemma LogStep(t: Tables, after: Tables, id: SurfaceIdentity, e: Event)
    requires Logged(t) && after.events == t.events + [e] && IdentityOf(Some(e.definition)) == Some(id)
    requires ContentsOf(after) == Apply(ContentsOf(t), e)
    requires forall x | x != id :: Generation(after, x) == Generation(t, x)
    requires Advance(Some(Generation(t, id)), e) == Some(Generation(after, id))
    ensures Logged(after)
  {
    hide IdentityOf, Apply, Advance, ContentsOf, Generation, Replay, VersionOf;
    EventSnoc(t.events, e);
  }

  lemma UpsertShape(t: Tables, entry: Option<RegistryEntry>) returns (id: SurfaceIdentity, row: Row, e: Event)
    requires Keyed(t) && Upsert(t, entry, true).Some?
    ensures var after := Upsert(t, entry, true).value;
            after.entries == t.entries[id := row] && after.events == t.events + [e]
    ensures e == Event(if id in t.entries then Updated else Created, row.generation, row.definition)
    ensures row.generation == Generation(t, id) + 1 && (id in t.entries <==> Generation(t, id) > 0)
    ensures IdentityOf(Some(row.definition)) == Some(id)
  {
    DefinitionPresent(entry.value);
    hide IdentityOf, CleanAliases, ReplacedObservations, NormalizeBadges, NormalizePricing;
    id := IdentityOf(entry.value.definition).value;
    row := Upsert(t, entry, true).value.entries[id];
    e := Event(if id in t.entries then Updated else Created, row.generation, row.definition);
    assert Some(row.definition) == entry.value.definition;
  }

  lemma UpsertKeepsLog(t: Tables, entry: Option<RegistryEntry>)
    requires Keyed(t) && Logged(t) && Upsert(t, entry, true).Some?
    ensures Logged(Upsert(t, entry, true).value)
  {
    hide IdentityOf, Upsert, Logged;
    var id, row, e := UpsertShape(t, entry);
    LogStep(t, Upsert(t, entry, true).value, id, e);
  }

  lemma DeleteKeepsConsistent(t: Tables, id: SurfaceIdentity, outbox: bool)
    requires Consistent(t)
    ensures Consistent(Delete(t, id, outbox))
  {
    hide IdentityOf, CleanAliases, Blank, KeyOfObservation;
  }

  lemma DeleteKeepsLog(t: Tables, id: SurfaceIdentity)
    requires Keyed(t) && Logged(t)
    ensures Logged(Delete(t, id, true))
  {
    hide IdentityOf, CleanAliases, Blank, Logged;
    var after := Delete(t, id, true);
    if after != t {
      LogStep(t, after, id, Event(Deleted, t.entries[id].generation, t.entries[id].definition));
    }
  }

  lemma EmptyIsConsistent()
    ensures Consistent(EMPTY) && Logged(EMPTY)
  {
    hide IdentityOf, CleanAliases;
  }

  /** Every reachable state is consistent: entries under their identity, aliases and observations
      exactly those of the entries, none for what was deleted. */
  lemma {:induction false} RunsAreConsistent(ops: seq<Op>, outbox: bool)
    ensures Consistent(Run(ops, outbox))
    decreases |ops|
  {
    hide Consistent, Upsert, Delete;
    EmptyIsConsistent();
    if ops != [] {
      var t, op := Run(ops[..|ops| - 1], outbox), ops[|ops| - 1];
      RunsAreConsistent(ops[..|ops| - 1], outbox);
      match op
      case UpsertOp(entry) => if Upsert(t, entry, outbox).Some? { UpsertKeepsConsistent(t, entry, outbox); }
      case DeleteOp(id) => DeleteKeepsConsistent(t, id, outbox);
    }
  }

  /** In every run the committed events replay to exactly the table. Per identity they are, lifetime
      after lifetime, created 1, updated 2 to n, deleted n, and the last version is the stored one. */
  lemma {:induction false} EventLogRefinesTable(ops: seq<Op>)
    ensures Logged(Run(ops, true))
    decreases |ops|
  {
    hide Logged, Keyed, Upsert, Delete;
    EmptyIsConsistent();
    RunsAreConsistent(ops, true);
    if ops != [] {
      var t, op := Run(ops[..|ops| - 1], true), ops[|ops| - 1];
      EventLogRefinesTable(ops[..|ops| - 1]);
      RunsAreConsistent(ops[..|ops| - 1], true);
      match op
      case UpsertOp(entry) => if Upsert(t, entry, true).Some? { UpsertKeepsLog(t, entry); }
      case DeleteOp(id) => DeleteKeepsLog(t, id);
    }
  }

  /** The position of an event tells its version: it is one more than the number of events of the
      same identity since the last deletion, or the same number for the deletion itself. */
  function SinceDeleted(events: seq<Event>, id: SurfaceIdentity): nat {
    if events == [] then 0 else
      var before, last := SinceDeleted(events[..|events| - 1], id), events[|events| - 1];
      if IdentityOf(Some(last.definition)) != Some(id) then before
      else if last.mutation == Deleted then 0 else before + 1
  }

  lemma VersionsCountUpdates(events: seq<Event>, id: SurfaceIdentity, i: nat)
    requires i < |events| && VersionOf(events, id).Some? && IdentityOf(Some(events[i].definition)) == Some(id)
    ensures var n := SinceDeleted(events[..i], id);
            && events[i].version == (if events[i].mutation == Deleted then n else n + 1)
            && (events[i].mutation == Created <==> n == 0)
  {
    hide IdentityOf;
    PrefixVersion(events, id, i + 1);
    VersionPrefixCounts(events, id, i);
    assert events[..i + 1][..i] == events[..i];
  }

  lemma {:induction false} PrefixVersion(events: seq<Event>, id: SurfaceIdentity, i: nat)
    requires i <= |events| && VersionOf(events, id).Some?
    ensures VersionOf(events[..i], id).Some?
    decreases |events|
  {
    hide IdentityOf;
    if i == |events| {
      assert events[..i] == events;
    } else {
      assert events[..|events| - 1][..i] == events[..i];
      PrefixVersion(events[..|events| - 1], id, i);
    }
  }

  lemma {:induction false} VersionPrefixCounts(events: seq<Event>, id: SurfaceIdentity, i: nat)
    requires i <= |events| && VersionOf(events, id).Some?
    ensures VersionOf(events[..i], id) == Some(SinceDeleted(events[..i], id))
    decreases i
  {
    hide IdentityOf;
    PrefixVersion(events, id, i);
    if i > 0 {
      VersionPrefixCounts(events, id, i - 1);
      assert events[..i][..i - 1] == events[..i - 1];
    }
  }

  /** A registry into which one definition has been put. */
  function Storing(d: ModelVersion): seq<Op> {
    [UpsertOp(Some(RegistryEntry(Some(d), [], None, [])))]
  }

  lemma StoredAlone(d: ModelVersion, id: SurfaceIdentity, outbox: bool)
    requires IdentityOf(Some(d)) == Some(id)
    ensures var t := Run(Storing(d), outbox);
            t.entries.Keys == {id} && t.entries[id].definition == d && t.observations == map[]
  {
    var ops := Storing(d);
    assert ops[..|ops| - 1] == [];
    NoObservations(id);
    hide IdentityOf, CleanAliases, ReplacedObservations, NormalizeBadges, NormalizePricing;
    assert Run([], outbox) == EMPTY;
    assert Run(ops, outbox) == Step(EMPTY, ops[0], outbox);
  }

  lemma NoObservations(id: SurfaceIdentity)
    ensures ReplacedObservations(map[], id, []) == Some(map[])
  {
  }

  /** A registry without an outbox records no event. */
  lemma {:induction false} NoOutboxNoEvents(ops: seq<Op>)
    ensures Run(ops, false).events == []
    decreases |ops|
  {
    hide IdentityOf, CleanAliases, ReplacedObservations, NormalizeBadges, NormalizePricing, Blank;
    if ops != [] { NoOutboxNoEvents(ops[..|ops| - 1]); }
  }

  // ---- Observations of the sync path ------------------------------------------------------------

  /** The observations collected for a model. */
  ghost predicate Triple(e: CollectedEntry, k: ObservationKey) {
    exists s :: s in Canonical(e.sources) && ObservedAs(s) == k
  }

  /** The source names no model id of its own, and its definition's is blank. */
  predicate Nameless(s: CollectedSource) {
    s.sourceModelID == "" && s.definition.Some? && Blank(s.definition.value.modelID)
  }

  lemma TriplesNamedIff(e: CollectedEntry)
    requires WellFormed(e.sources)
    ensures (forall k | Triple(e, k) :: k.sourceModelID != "") <==> forall s | s in Canonical(e.sources) :: !Nameless(s)
  {
    CleanCanonical(e.sources);
    hide Canonical, WellFormed, Normalize, Blank, ObservedAs;
    forall s | s in Canonical(e.sources) ensures ObservedAs(s).sourceModelID == "" <==> Nameless(s) {
      EffectiveIDIsBlankIff(s);
    }
    forall s | s in Canonical(e.sources) ensures Triple(e, ObservedAs(s)) {}
  }

  lemma ObservedNamedIff(normal: seq<RegistrySource>, e: CollectedEntry)
    requires forall k :: Observed(normal, k) <==> Triple(e, k)
    ensures (forall o | o in normal :: o.sourceModelID != "") <==> forall k | Triple(e, k) :: k.sourceModelID != ""
  {
    hide Triple;
    forall o | o in normal ensures Triple(e, KeyOfObservation(o)) { assert Observed(normal, KeyOfObservation(o)); }
    forall k | Triple(e, k) ensures exists o :: o in normal && o.sourceModelID == k.sourceModelID {
      assert Observed(normal, k);
    }
  }

  lemma IsTriple(e: CollectedEntry, k: ObservationKey)
    requires WellFormed(e.sources)
    ensures Observed(NormalizeObservations(EntryFor(e).sources), k) <==> Triple(e, k)
  {
    hide WellFormed, Canonical, EntryFor, NormalizeObservations, Observed, ObservedAs;
    ObservationsOfEntry(e, k);
  }

  /** Upserting what was collected for a model succeeds exactly when every source has an effective
      model id, and then the model's observation rows are exactly the triples of its sources. */
  lemma CollectedUpsert(t: Tables, e: CollectedEntry, outbox: bool)
    requires WellFormed(e.sources) && IdentityOf(e.definition).Some?
    ensures var after, id := Upsert(t, Some(EntryFor(e)), outbox), IdentityOf(e.definition).value;
            && (after.Some? <==> forall s | s in Canonical(e.sources) :: !Nameless(s))
            && (after.Some? ==> forall k :: ObservationRow(id, k) in after.value.observations <==> Triple(e, k))
  {
    hide IdentityOf, Canonical, WellFormed, Nameless, Triple, Observed, ReplacedObservations, NormalizeObservations,
      RegistrySourcesOf, NormalizeBadges, NormalizePricing, CleanAliases;
    var entry, id := EntryFor(e), IdentityOf(e.definition).value;
    var normal := NormalizeObservations(entry.sources);
    forall k ensures Observed(normal, k) <==> Triple(e, k) { IsTriple(e, k); }
    ReplacedRows(t.observations, id, entry.sources);
    TriplesNamedIff(e);
    ObservedNamedIff(normal, e);
  }

  /** A usable source whose definition names no model. */
  const NAMELESS: CollectedSource := CollectedSource("v", "m", "s", "", "", false, 0, 0,
    Some(ModelVersion("v", "", "", 0, [], [], [], [], None, [], map[])), [], None)

  lemma NamelessIsUsable()
    ensures Normalize(NAMELESS) == Some(NAMELESS) && StableIDs(NAMELESS) && Nameless(NAMELESS)
  {
    hide VendorSlug, Slugs.Stable, TrimSpace, NormalizeBadges;
    LetterIsStable("v");
    LetterIsStable("m");
    LetterIsStable("s");
    NothingToNormalize();
  }

  /** A report with this one source. */
  const NAMELESS_REPORT: CollectedEntry := CollectedEntry(
    Some(ModelVersion("v", "m", "m", 1, [1], [], [1], [1], None, [], map[])), [], None, [NAMELESS])

  lemma NamelessReportFacts()
    ensures IdentityOf(NAMELESS_REPORT.definition).Some? && NAMELESS_REPORT.sources == [NAMELESS]
    ensures NAMELESS.authorityPriority == 0
  {
    LetterIsStable("v");
    LetterIsStable("m");
    hide TrimSpace;
  }

  lemma LoneIsWellFormed(s: CollectedSource)
    requires StableIDs(s)
    ensures WellFormed([s])
  {
    hide StableIDs;
  }

  lemma FirstOfList(s: CollectedSource)
    ensures s in [s]
  {
  }

  /** A report that shows it: it names its model, and is never stored. */
  lemma NamelessIsNotStored(t: Tables, outbox: bool)
    ensures Upsert(t, Some(EntryFor(NAMELESS_REPORT)), outbox) == None
  {
    hide *;
    NamelessReportFacts();
    NamelessIsUsable();
    LoneIsWellFormed(NAMELESS);
    LoneSourceIsCanonical(NAMELESS);
    FirstOfList(NAMELESS);
    CollectedUpsert(t, NAMELESS_REPORT, outbox);
  }
}
