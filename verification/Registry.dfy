/** The model registry (store/store.go, store/store_write.go): every upsert and delete is one
    transaction over the entries, aliases, observations and outbox tables. */
module Registry {
  import opened Text
  import opened ModelIdentity
  import opened EntryMerge
  import opened Identities
  import opened RegistryEntries

  datatype Row = Row(definition: ModelVersion, badges: seq<string>, pricing: Option<PricingSummary>, generation: nat)

  /** Keyed by identity, alias kind and alias value. */
  datatype AliasRow = AliasRow(id: SurfaceIdentity, alias: Alias)

  /** The primary key of an observation. */
  datatype ObservationRow = ObservationRow(id: SurfaceIdentity, key: ObservationKey)

  datatype Mutation = Created | Updated | Deleted

  /** A catalog event: the aggregate is the identity of the definition it carries. */
  datatype Event = Event(mutation: Mutation, version: nat, definition: ModelVersion)

  type Observations = map<ObservationRow, RegistrySource>

  datatype Tables = Tables(
    entries: map<SurfaceIdentity, Row>,
    aliases: set<AliasRow>,
    observations: Observations,
    events: seq<Event>)

  const EMPTY: Tables := Tables(map[], {}, map[], [])

  // ---- Transactions as functions ----------------------------------------------------------------

  function AliasesWithout(aliases: set<AliasRow>, id: SurfaceIdentity): set<AliasRow> {
    set r | r in aliases && r.id != id
  }

  function AliasRows(id: SurfaceIdentity, aliases: seq<Alias>): set<AliasRow> {
    set a | a in aliases :: AliasRow(id, a)
  }

  function ObservationsWithout(rows: Observations, id: SurfaceIdentity): Observations {
    map r | r in rows && r.id != id :: rows[r]
  }

  /** Inserting fails on a null source model id, which is how an empty one is written, and on a key
      that is taken. */
  function InsertObservation(rows: Observations, id: SurfaceIdentity, o: RegistrySource): Option<Observations> {
    var row := ObservationRow(id, KeyOfObservation(o));
    if o.sourceModelID == "" || row in rows then None else Some(rows[row := o])
  }

  function InsertObservations(rows: Observations, id: SurfaceIdentity,
            sources: seq<RegistrySource>): Option<Observations> {
    if sources == [] then Some(rows) else
      match InsertObservations(rows, id, sources[..|sources| - 1])
      case None => None
      case Some(before) =>
        if sources[|sources| - 1].sourceID == "" then Some(before)
          else InsertObservation(before, id, sources[|sources| - 1])
  }

  function ReplacedObservations(rows: Observations, id: SurfaceIdentity,
            sources: seq<RegistrySource>): Option<Observations> {
    InsertObservations(ObservationsWithout(rows, id), id, NormalizeObservations(sources))
  }

  function Enqueued(events: seq<Event>, outbox: bool, e: Event): seq<Event> {
    if outbox then events + [e] else events
  }

  /** The tables after an upsert, or nothing if it is rolled back. */
  function Upsert(t: Tables, entry: Option<RegistryEntry>, outbox: bool): Option<Tables> {
    if entry.None? || IdentityOf(entry.value.definition).None? then None else
      var id, e := IdentityOf(entry.value.definition).value, entry.value;
      var d := e.definition.value;
      var generation := if id in t.entries then t.entries[id].generation + 1 else 1;
      match ReplacedObservations(t.observations, id, e.sources)
      case None => None
      case Some(observations) =>
        Some(Tables(
          t.entries[id := Row(d, NormalizeBadges(e.badges), NormalizePricing(e.pricing), generation)],
          AliasesWithout(t.aliases, id) + AliasRows(id, CleanAliases(d.aliases)),
          observations,
          Enqueued(t.events, outbox, Event(if id in t.entries then Updated else Created, generation, d))))
  }

  /** The tables after a delete; a missing row is no error, and aliases go with their entry. */
  function Delete(t: Tables, id: SurfaceIdentity, outbox: bool): Tables {
    if Blank(id.vendorID) || Blank(id.modelID) || id !in t.entries then t
    else Tables(
      t.entries - {id},
      AliasesWithout(t.aliases, id),
      ObservationsWithout(t.observations, id),
      Enqueued(t.events, outbox, Event(Deleted, t.entries[id].generation, t.entries[id].definition)))
  }

  // ---- The store --------------------------------------------------------------------------------

  class PostgresModelRegistry {
    const outbox: bool
    var entries: map<SurfaceIdentity, Row>
    var aliases: set<AliasRow>
    var observations: Observations
    var events: seq<Event>

    ghost function State(): Tables
      reads this
    {
      Tables(entries, aliases, observations, events)
    }

    constructor (withOutbox: bool)
      ensures State() == EMPTY && outbox == withOutbox
    {
      outbox := withOutbox;
      entries, aliases, observations, events := map[], {}, map[], [];
    }

    method NextGeneration(id: SurfaceIdentity) returns (generation: nat, mutation: Mutation)
      ensures generation == if id in entries then entries[id].generation + 1 else 1
      ensures mutation == if id in entries then Updated else Created
    {
      if id !in entries { return 1, Created; }
      generation, mutation := entries[id].generation + 1, Updated;
    }

    method UpsertManagedDefinition(entry: Option<RegistryEntry>) returns (ok: bool)
      modifies this
      ensures ok <==> Upsert(old(State()), entry, outbox).Some?
      ensures State() == if ok then Upsert(old(State()), entry, outbox).value else old(State())
    {
      hide NormalizeBadges, NormalizePricing, CleanAliases, IdentityOf, InsertObservations, NormalizeObservations;
      if entry.None? || IdentityOf(entry.value.definition).None? { return false; }
      var id, e := IdentityOf(entry.value.definition).value, entry.value;
      DefinitionPresent(e);
      var generation, mutation := NextGeneration(id);
      var badges := NormalizeDefinitionSourceBadges(e.badges);
      var newEntries := entries[id := Row(e.definition.value, badges, NormalizePricing(e.pricing), generation)];
      var newAliases := ReplaceAliases(aliases, id, e.definition.value);
      var newObservations := ReplaceObservations(observations, id, e.sources);
      if newObservations.None? { return false; }
      var newEvents := EnqueueModelDefinitionEvent(events, outbox, e.definition.value, mutation, generation);
      entries, aliases, observations, events := newEntries, newAliases, newObservations.value, newEvents;
      ok := true;
    }

    method DeleteManagedDefinition(id: SurfaceIdentity)
      modifies this
      ensures State() == Delete(old(State()), id, outbox)
    {
      hide TrimSpace;
      if TrimSpace(id.vendorID) == "" || TrimSpace(id.modelID) == "" { return; }
      if id !in entries { return; }
      var row := entries[id];
      var newEvents := EnqueueModelDefinitionEvent(events, outbox, row.definition, Deleted, row.generation);
      observations := ObservationsWithout(observations, id);
      entries, aliases := entries - {id}, AliasesWithout(aliases, id);
      events := newEvents;
    }
  }

  lemma DefinitionPresent(e: RegistryEntry)
    requires IdentityOf(e.definition).Some?
    ensures e.definition.Some?
  {
    hide NewSurfaceIdentity;
  }

  method ReplaceAliases(rows: set<AliasRow>, id: SurfaceIdentity, definition: ModelVersion)
    returns (out: set<AliasRow>)
    ensures out == AliasesWithout(rows, id) + AliasRows(id, CleanAliases(definition.aliases))
  {
    hide CleanAliases;
    out := AliasesWithout(rows, id);
    NoAliases();
    assert [] + definition.aliases == definition.aliases;
    var aliases := AppendAliases([], definition.aliases, []);
    for i := 0 to |aliases|
      invariant out == AliasesWithout(rows, id) + AliasRows(id, aliases[..i])
    {
      assert aliases[..i + 1] == aliases[..i] + [aliases[i]];
      out := out + {AliasRow(id, aliases[i])};
    }
    assert aliases[..|aliases|] == aliases;
  }

  lemma NoAliases()
    ensures CleanAliases([]) == []
  {
  }

  method ReplaceObservations(rows: Observations, id: SurfaceIdentity, sources: seq<RegistrySource>)
    returns (out: Option<Observations>)
    ensures out == ReplacedObservations(rows, id, sources)
  {
    hide KeyOfObservation, NormalizeObservations;
    var table := ObservationsWithout(rows, id);
    var normalized := NormalizeRegistryObservations(sources);
    for i := 0 to |normalized|
      invariant InsertObservations(ObservationsWithout(rows, id), id, normalized[..i]) == Some(table)
    {
      assert normalized[..i + 1][..i] == normalized[..i];
      if normalized[i].sourceID == "" { continue; }
      var inserted := InsertObservation(table, id, normalized[i]);
      if inserted.None? {
        FailureStays(ObservationsWithout(rows, id), id, normalized, i + 1);
        return None;
      }
      table := inserted.value;
    }
    assert normalized[..|normalized|] == normalized;
    out := Some(table);
  }

  lemma {:induction false} FailureStays(rows: Observations, id: SurfaceIdentity, sources: seq<RegistrySource>, i: nat)
    requires i <= |sources| && InsertObservations(rows, id, sources[..i]).None?
    ensures InsertObservations(rows, id, sources).None?
    decreases |sources|
  {
    hide InsertObservation;
    if i == |sources| {
      assert sources[..i] == sources;
    } else {
      assert sources[..|sources| - 1][..i] == sources[..i];
      FailureStays(rows, id, sources[..|sources| - 1], i);
    }
  }

  method EnqueueModelDefinitionEvent(events: seq<Event>, outbox: bool, definition: ModelVersion, mutation: Mutation,
            generation: nat)
    returns (out: seq<Event>)
    ensures out == Enqueued(events, outbox, Event(mutation, generation, definition))
  {
    if !outbox { return events; }
    out := events + [Event(mutation, generation, definition)];
  }
}
