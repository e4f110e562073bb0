/** Applying a collected snapshot to the registry (sync/apply.go): upsert what was collected, delete
    what is stale, and keep the models of managed vendors nobody reported on. */
module Reconcile {
  import opened Text
  import opened Ordering
  import opened EntryMerge
  import opened Identities
  import opened RegistryEntries
  import opened Registry
  import opened RegistryRuns

  /** What a run applies: the collected entries, the managed vendors and the collected vendors. */
  datatype Plan = Plan(entries: map<SurfaceIdentity, RegistryEntry>, managed: set<string>, collected: set<string>)

  ghost predicate WellKeyed(plan: Plan) {
    forall id | id in plan.entries ::
      plan.entries[id].definition.Some? && IdentityOf(plan.entries[id].definition) == Some(id)
  }

  predicate ShouldKeepManagedDefinition(vendorID: string, plan: Plan) {
    if vendorID !in plan.managed then false
    else if vendorID in plan.collected then false
    else true
  }

  predicate Stale(plan: Plan, id: SurfaceIdentity) {
    id !in plan.entries && !ShouldKeepManagedDefinition(id.vendorID, plan)
  }

  // ---- Content of a model -----------------------------------------------------------------------

  function RowsOf(rows: Observations, id: SurfaceIdentity): Observations {
    map r | r in rows && r.id == id :: rows[r]
  }

  /** The registry holds exactly the planned entry. */
  ghost predicate Holds(t: Tables, id: SurfaceIdentity, e: RegistryEntry) {
    && id in t.entries && e.definition == Some(t.entries[id].definition)
    && t.entries[id].badges == NormalizeBadges(e.badges) && t.entries[id].pricing == NormalizePricing(e.pricing)
    && InsertObservations(map[], id, NormalizeObservations(e.sources)) == Some(RowsOf(t.observations, id))
  }

  /** The model's row and observations are the same in both states. */
  ghost predicate Same(s: Tables, t: Tables, id: SurfaceIdentity) {
    && id in s.entries && id in t.entries && t.entries[id] == s.entries[id]
    && RowsOf(t.observations, id) == RowsOf(s.observations, id)
  }

  lemma {:induction false} InsertIsLocal(rows: Observations, id: SurfaceIdentity, sources: seq<RegistrySource>)
    requires RowsOf(rows, id) == map[]
    ensures var out, alone := InsertObservations(rows, id, sources), InsertObservations(map[], id, sources);
            && out.Some? == alone.Some?
            && (out.Some? ==> && RowsOf(out.value, id) == alone.value
                              && forall x | x != id :: RowsOf(out.value, x) == RowsOf(rows, x))
    decreases |sources|
  {
    if sources != [] {
      InsertIsLocal(rows, id, sources[..|sources| - 1]);
      hide KeyOfObservation, InsertObservations;
      var before, alone := InsertObservations(rows, id, sources[..|sources| - 1]),
          InsertObservations(map[], id, sources[..|sources| - 1]);
      InsertSnoc(rows, id, sources);
      InsertSnoc(map[], id, sources);
      if before.Some? { InsertOneIsLocal(before.value, alone.value, id, sources[|sources| - 1]); }
    }
  }

  lemma InsertSnoc(rows: Observations, id: SurfaceIdentity, sources: seq<RegistrySource>)
    requires sources != []
    ensures var before, o := InsertObservations(rows, id, sources[..|sources| - 1]), sources[|sources| - 1];
            InsertObservations(rows, id, sources)
            == if before.None? || o.sourceID == "" then before else InsertObservation(before.value, id, o)
  {
    hide InsertObservation;
  }

  lemma InsertOneIsLocal(rows: Observations, alone: Observations, id: SurfaceIdentity, o: RegistrySource)
    requires RowsOf(rows, id) == alone
    ensures var out, only := InsertObservation(rows, id, o), InsertObservation(alone, id, o);
            && out.Some? == only.Some?
            && (out.Some? ==> && RowsOf(out.value, id) == only.value
                              && forall x | x != id :: RowsOf(out.value, x) == RowsOf(rows, x))
  {
    var row := ObservationRow(id, KeyOfObservation(o));
    assert row in rows <==> row in RowsOf(rows, id);
  }

  lemma WithoutIsLocal(rows: Observations, id: SurfaceIdentity)
    ensures RowsOf(ObservationsWithout(rows, id), id) == map[]
    ensures forall x | x != id :: RowsOf(ObservationsWithout(rows, id), x) == RowsOf(rows, x)
  {
  }

  /** An upsert puts the planned entry in place and touches no other model. */
  lemma UpsertEffect(outbox: bool, t: Tables, id: SurfaceIdentity, e: RegistryEntry)
    requires IdentityOf(e.definition) == Some(id) && Upsert(t, Some(e), outbox).Some?
    ensures var after := Upsert(t, Some(e), outbox).value;
            && Holds(after, id, e) && after.entries.Keys == t.entries.Keys + {id}
            && forall x | x != id && x in t.entries :: Same(t, after, x)
  {
    DefinitionPresent(e);
    WithoutIsLocal(t.observations, id);
    InsertIsLocal(ObservationsWithout(t.observations, id), id, NormalizeObservations(e.sources));
    hide IdentityOf, NormalizeObservations, InsertObservations, ObservationsWithout, RowsOf, NormalizeBadges,
      NormalizePricing, CleanAliases;
    assert Some(e.definition.value) == e.definition;
  }

  lemma DeleteEffect(outbox: bool, t: Tables, id: SurfaceIdentity)
    requires TrimmedIdentity(id)
    ensures var after := Delete(t, id, outbox);
            && after.entries.Keys == t.entries.Keys - {id}
            && forall x | x != id && x in t.entries :: Same(t, after, x)
  {
    WithoutIsLocal(t.observations, id);
    hide ObservationsWithout, RowsOf, TrimSpace, CleanAliases;
  }

  // ---- The goal ---------------------------------------------------------------------------------

  /** From `s`, applying the plan leads to `t`: the planned entries, plus unchanged the models of
      managed vendors that were not collected; nothing else. */
  ghost predicate Reconciled(s: Tables, plan: Plan, t: Tables) {
    && (forall id | id in plan.entries :: Holds(t, id, plan.entries[id]))
    && (forall id | id in s.entries && id !in plan.entries && !Stale(plan, id) :: Same(s, t, id))
    && (forall id | id in t.entries :: id in plan.entries || (id in s.entries && !Stale(plan, id)))
  }

  /** What every state between `s` and the goal satisfies. */
  ghost predicate Between(s: Tables, plan: Plan, t: Tables) {
    && (forall id | id in t.entries && id !in plan.entries :: Same(s, t, id))
    && (forall id | id in s.entries && id !in plan.entries && !Stale(plan, id) :: id in t.entries)
  }

  lemma BetweenStart(s: Tables, plan: Plan)
    ensures Between(s, plan, s)
  {
    hide RowsOf;
  }

  lemma SameTrans(a: Tables, b: Tables, c: Tables, id: SurfaceIdentity)
    requires Same(a, b, id) && Same(b, c, id)
    ensures Same(a, c, id)
  {
    hide RowsOf;
  }

  lemma HoldsSame(t: Tables, after: Tables, id: SurfaceIdentity, e: RegistryEntry)
    requires Holds(t, id, e) && Same(t, after, id)
    ensures Holds(after, id, e)
  {
    hide RowsOf, InsertObservations, NormalizeObservations;
  }

  // ---- One run ----------------------------------------------------------------------------------

  /** Where a run stands: it has yet to list the registry, is upserting, is deleting, has completed, or
      has stopped on an error or a crash. */
  datatype Progress =
    | Waiting
    | Upserting(listed: seq<SurfaceIdentity>, todo: seq<SurfaceIdentity>)
    | Deleting(todo: seq<SurfaceIdentity>)
    | Completed
    | Stopped

  ghost predicate Ids(s: seq<SurfaceIdentity>, ids: set<SurfaceIdentity>) {
    forall id :: id in s <==> id in ids
  }

  /** One transaction of a run, or a local move between its phases. */
  ghost predicate Move(outbox: bool, plan: Plan, t: Tables, p: Progress, after: Tables, q: Progress) {
    || (q == Stopped && after == t && p != Completed)
    || match p
       case Waiting =>
         q.Upserting? && after == t && Ids(q.listed, t.entries.Keys) && Ids(q.todo, plan.entries.Keys)
       case Upserting(listed, todo) =>
         if todo == [] then q == Deleting(listed) && after == t
         else
           && todo[0] in plan.entries && Upsert(t, Some(plan.entries[todo[0]]), outbox) == Some(after)
           && q == Upserting(listed, todo[1..])
       case Deleting(todo) =>
         if todo == [] then q == Completed && after == t
         else q == Deleting(todo[1..]) && after == if Stale(plan, todo[0]) then Delete(t, todo[0], outbox) else t
       case Completed => false
       case Stopped => false
  }

  /** What a run has achieved so far, however the other runs interfere. */
  ghost predicate Achieved(plan: Plan, t: Tables, p: Progress) {
    match p
    case Waiting => true
    case Stopped => true
    case Upserting(listed, todo) =>
      && (forall id | id in todo :: id in plan.entries)
      && (forall id | id in plan.entries && id !in todo :: Holds(t, id, plan.entries[id]))
      && (forall id | id in listed :: TrimmedIdentity(id))
      && (forall id | id in t.entries && Stale(plan, id) :: id in listed)
    case Deleting(todo) =>
      && (forall id | id in plan.entries :: Holds(t, id, plan.entries[id]))
      && (forall id | id in todo :: TrimmedIdentity(id))
      && (forall id | id in t.entries && Stale(plan, id) :: id in todo)
    case Completed =>
      && (forall id | id in plan.entries :: Holds(t, id, plan.entries[id]))
      && (forall id | id in t.entries :: !Stale(plan, id))
  }

  /** What any move does to the registry: planned entries only appear or stay, stale ones only
      disappear, the others do not change. */
  ghost predicate Evolves(plan: Plan, t: Tables, after: Tables) {
    && (forall id | id in after.entries && id !in plan.entries :: Same(t, after, id))
    && (forall id | id in t.entries && !Stale(plan, id) :: id in after.entries)
    && (forall id | id in plan.entries && Holds(t, id, plan.entries[id]) :: Holds(after, id, plan.entries[id]))
  }

  lemma NoChange(plan: Plan, t: Tables)
    ensures Evolves(plan, t, t)
  {
    hide RowsOf, InsertObservations, NormalizeObservations;
  }

  lemma UpsertEvolves(outbox: bool, plan: Plan, t: Tables, id: SurfaceIdentity)
    requires WellKeyed(plan) && id in plan.entries && Upsert(t, Some(plan.entries[id]), outbox).Some?
    ensures var after := Upsert(t, Some(plan.entries[id]), outbox).value;
            Evolves(plan, t, after) && Holds(after, id, plan.entries[id])
  {
    hide IdentityOf, Upsert, Holds, Same;
    UpsertEffect(outbox, t, id, plan.entries[id]);
    var after := Upsert(t, Some(plan.entries[id]), outbox).value;
    forall x | x in plan.entries && Holds(t, x, plan.entries[x]) ensures Holds(after, x, plan.entries[x]) {
      if x != id {
        HoldsPresent(t, x, plan.entries[x]);
        HoldsSame(t, after, x, plan.entries[x]);
      }
    }
  }

  lemma HoldsPresent(t: Tables, id: SurfaceIdentity, e: RegistryEntry)
    ensures Holds(t, id, e) ==> id in t.entries
  {
    hide InsertObservations, RowsOf;
  }

  lemma DeleteEvolves(outbox: bool, plan: Plan, t: Tables, id: SurfaceIdentity)
    requires Stale(plan, id) && TrimmedIdentity(id)
    ensures var after := Delete(t, id, outbox); Evolves(plan, t, after) && id !in after.entries
  {
    hide Delete, Holds, Same, TrimmedIdentity;
    DeleteEffect(outbox, t, id);
    var after := Delete(t, id, outbox);
    forall x | x in plan.entries && Holds(t, x, plan.entries[x]) ensures Holds(after, x, plan.entries[x]) {
      HoldsPresent(t, x, plan.entries[x]);
      HoldsSame(t, after, x, plan.entries[x]);
    }
  }

  /** The achievements of a run survive the moves of the others. */
  lemma AchievedSurvives(plan: Plan, t: Tables, after: Tables, p: Progress)
    requires Achieved(plan, t, p) && Evolves(plan, t, after)
    ensures Achieved(plan, after, p)
  {
    hide Holds, TrimmedIdentity;
    forall id | id in after.entries && Stale(plan, id) ensures id in t.entries { assert Same(t, after, id); }
  }

  lemma BetweenSurvives(s: Tables, plan: Plan, t: Tables, after: Tables)
    requires Between(s, plan, t) && Evolves(plan, t, after)
    ensures Between(s, plan, after)
  {
    hide Holds, RowsOf;
    forall id | id in after.entries && id !in plan.entries ensures Same(s, after, id) { SameTrans(s, t, after, id); }
  }

  lemma UpsertMove(outbox: bool, plan: Plan, t: Tables, p: Progress, after: Tables, q: Progress)
    requires WellKeyed(plan) && Achieved(plan, t, p) && Move(outbox, plan, t, p, after, q) && p.Upserting?
            && p.todo != [] && q != Stopped
    ensures Evolves(plan, t, after) && Achieved(plan, after, q)
  {
    hide Upsert, Holds, TrimmedIdentity, IdentityOf;
    var id := p.todo[0];
    UpsertEvolves(outbox, plan, t, id);
    AchievedSurvives(plan, t, after, p);
    hide Evolves, Same;
    assert forall x | x in p.todo && x != id :: x in p.todo[1..];
  }

  lemma DeleteMove(outbox: bool, plan: Plan, t: Tables, p: Progress, after: Tables, q: Progress)
    requires Achieved(plan, t, p) && Move(outbox, plan, t, p, after, q) && p.Deleting? && p.todo != [] && q != Stopped
    ensures Evolves(plan, t, after) && Achieved(plan, after, q)
  {
    hide Delete, Holds, TrimmedIdentity;
    var id := p.todo[0];
    if Stale(plan, id) { DeleteEvolves(outbox, plan, t, id); } else { NoChange(plan, t); }
    AchievedSurvives(plan, t, after, p);
    hide Evolves, Same;
    assert forall x | x in p.todo && x != id :: x in p.todo[1..];
  }

  lemma StoredAreTrimmed(t: Tables)
    requires Keyed(t)
    ensures forall id | id in t.entries :: TrimmedIdentity(id)
  {
    hide IdentityOf, TrimmedIdentity;
    forall id | id in t.entries ensures TrimmedIdentity(id) { IdentitiesAreTrimmed(Some(t.entries[id].definition)); }
  }

  /** Every move of a run keeps what it has achieved and evolves the registry. */
  lemma MoveAchieves(outbox: bool, plan: Plan, t: Tables, p: Progress, after: Tables, q: Progress)
    requires WellKeyed(plan) && Keyed(t) && Achieved(plan, t, p) && Move(outbox, plan, t, p, after, q)
    ensures Evolves(plan, t, after) && Achieved(plan, after, q)
  {
    if q == Stopped || p.Waiting? || (p.Upserting? && p.todo == []) || (p.Deleting? && p.todo == []) {
      LocalMove(outbox, plan, t, p, after, q);
    } else {
      hide Move, Achieved, Keyed, WellKeyed;
      if p.Upserting? { UpsertMove(outbox, plan, t, p, after, q); }
      else if p.Deleting? { DeleteMove(outbox, plan, t, p, after, q); }
      else { FinishedMoves(outbox, plan, t, p, after, q); }
    }
  }

  lemma FinishedMoves(outbox: bool, plan: Plan, t: Tables, p: Progress, after: Tables, q: Progress)
    requires Move(outbox, plan, t, p, after, q) && q != Stopped
    ensures !p.Completed? && !p.Stopped?
  {
  }

  lemma LocalMove(outbox: bool, plan: Plan, t: Tables, p: Progress, after: Tables, q: Progress)
    requires WellKeyed(plan) && Keyed(t) && Achieved(plan, t, p) && Move(outbox, plan, t, p, after, q)
    requires q == Stopped || p.Waiting? || (p.Upserting? && p.todo == []) || (p.Deleting? && p.todo == [])
    ensures Evolves(plan, t, after) && Achieved(plan, after, q)
  {
    hide Holds, Same, TrimmedIdentity, Keyed, Evolves;
    NoChange(plan, t);
    StoredAreTrimmed(t);
  }

  lemma MoveKeepsConsistent(outbox: bool, plan: Plan, t: Tables, p: Progress, after: Tables, q: Progress)
    requires Consistent(t) && Move(outbox, plan, t, p, after, q)
    ensures Consistent(after)
  {
    hide Consistent, Upsert, Delete;
    if p.Upserting? && p.todo != [] && q != Stopped {
      UpsertKeepsConsistent(t, Some(plan.entries[p.todo[0]]), outbox);
    } else if p.Deleting? && p.todo != [] && q != Stopped {
      DeleteKeepsConsistent(t, p.todo[0], outbox);
    }
  }

  // ---- Several runs at once ---------------------------------------------------------------------

  datatype System = System(tables: Tables, runs: seq<Progress>)

  ghost predicate Initial(s: Tables, sys: System) {
    sys.tables == s && forall i | 0 <= i < |sys.runs| :: sys.runs[i] == Waiting
  }

  /** One of the runs makes a move. */
  ghost predicate Next(outbox: bool, plan: Plan, a: System, b: System) {
    && |b.runs| == |a.runs|
    && exists i | 0 <= i < |a.runs| ::
         (&& Move(outbox, plan, a.tables, a.runs[i], b.tables, b.runs[i])
          && forall j | 0 <= j < |a.runs| && j != i :: b.runs[j] == a.runs[j])
  }

  ghost predicate Execution(outbox: bool, s: Tables, plan: Plan, trace: seq<System>) {
    && trace != [] && Initial(s, trace[0])
    && forall i | 0 <= i < |trace| - 1 :: Next(outbox, plan, trace[i], trace[i + 1])
  }

  ghost predicate Invariant(s: Tables, plan: Plan, sys: System) {
    && Consistent(sys.tables) && Between(s, plan, sys.tables)
    && forall i | 0 <= i < |sys.runs| :: Achieved(plan, sys.tables, sys.runs[i])
  }

  lemma NextKeepsInvariant(outbox: bool, s: Tables, plan: Plan, a: System, b: System)
    requires WellKeyed(plan) && Invariant(s, plan, a) && Next(outbox, plan, a, b)
    ensures Invariant(s, plan, b)
  {
    hide Move, Achieved, Between, Evolves, AliasesMatch, ObservationsMatch, Keyed, WellKeyed;
    var i :| 0 <= i < |a.runs| && Move(outbox, plan, a.tables, a.runs[i], b.tables, b.runs[i])
        && forall j | 0 <= j < |a.runs| && j != i :: b.runs[j] == a.runs[j];
    MoveKeepsConsistent(outbox, plan, a.tables, a.runs[i], b.tables, b.runs[i]);
    MoveAchieves(outbox, plan, a.tables, a.runs[i], b.tables, b.runs[i]);
    BetweenSurvives(s, plan, a.tables, b.tables);
    forall j | 0 <= j < |b.runs| ensures Achieved(plan, b.tables, b.runs[j]) {
      if j != i { AchievedSurvives(plan, a.tables, b.tables, a.runs[j]); }
    }
  }

  lemma {:induction false} ExecutionKeepsInvariant(outbox: bool, s: Tables, plan: Plan, trace: seq<System>, n: nat)
    requires Consistent(s) && WellKeyed(plan) && Execution(outbox, s, plan, trace) && n < |trace|
    ensures Invariant(s, plan, trace[n])
  {
    hide Consistent, Next, Between, WellKeyed;
    if n == 0 {
      BetweenStart(s, plan);
    } else {
      ExecutionKeepsInvariant(outbox, s, plan, trace, n - 1);
      hide Invariant, Initial;
      assert Next(outbox, plan, trace[n - 1], trace[n]);
      NextKeepsInvariant(outbox, s, plan, trace[n - 1], trace[n]);
    }
  }

  lemma CompletedIsReconciled(s: Tables, plan: Plan, t: Tables)
    requires Between(s, plan, t) && Achieved(plan, t, Completed)
    ensures Reconciled(s, plan, t)
  {
    hide Holds, RowsOf;
  }

  /** Convergence: however several runs carrying one plan interleave, stop and crash, as soon as one
      of them has completed the registry is reconciled, and stays so. */
  lemma RunsConverge(outbox: bool, s: Tables, plan: Plan, trace: seq<System>, n: nat)
    requires Consistent(s) && WellKeyed(plan) && Execution(outbox, s, plan, trace) && n < |trace|
    requires exists i :: 0 <= i < |trace[n].runs| && trace[n].runs[i] == Completed
    ensures Reconciled(s, plan, trace[n].tables)
  {
    ExecutionKeepsInvariant(outbox, s, plan, trace, n);
    hide Between, Achieved, Consistent, Execution, Reconciled;
    CompletedIsReconciled(s, plan, trace[n].tables);
  }

  /** At no point of any execution, completed or not, has a model of a managed vendor been touched
      that the plan neither contains nor marks as collected. */
  lemma ManagedModelsSurvive(outbox: bool, s: Tables, plan: Plan, trace: seq<System>, n: nat, id: SurfaceIdentity)
    requires Consistent(s) && WellKeyed(plan) && Execution(outbox, s, plan, trace) && n < |trace|
    requires id in s.entries && id !in plan.entries && id.vendorID in plan.managed && id.vendorID !in plan.collected
    ensures Same(s, trace[n].tables, id)
  {
    ExecutionKeepsInvariant(outbox, s, plan, trace, n);
    hide Achieved, Consistent, Execution, RowsOf;
  }

  ghost predicate SameContent(a: Tables, b: Tables, id: SurfaceIdentity) {
    && id in a.entries && id in b.entries
    && b.entries[id] == a.entries[id].(generation := b.entries[id].generation)
    && RowsOf(a.observations, id) == RowsOf(b.observations, id)
  }

  /** Applying the plan again changes at most the generations of the planned entries. */
  lemma RerunChangesOnlyGenerations(s: Tables, plan: Plan, t: Tables, again: Tables)
    requires Reconciled(s, plan, t) && Reconciled(t, plan, again)
    ensures again.entries.Keys == t.entries.Keys
    ensures forall id | id in t.entries :: if id in plan.entries then SameContent(t, again, id) else Same(t, again, id)
  {
    hide RowsOf, InsertObservations, NormalizeObservations, NormalizeBadges, NormalizePricing,
      ShouldKeepManagedDefinition;
    forall id | id in t.entries ensures id in again.entries {}
    forall id | id in again.entries ensures id in t.entries {}
  }

  // ---- The reconcile loop -----------------------------------------------------------------------

  /** A run that has got this far, starting from `s`. */
  ghost predicate Underway(s: Tables, plan: Plan, t: Tables, p: Progress) {
    Consistent(t) && WellKeyed(plan) && Between(s, plan, t) && Achieved(plan, t, p)
  }

  lemma RunMove(outbox: bool, s: Tables, plan: Plan, t: Tables, p: Progress, after: Tables, q: Progress)
    requires Underway(s, plan, t, p) && Move(outbox, plan, t, p, after, q)
    ensures Underway(s, plan, after, q)
  {
    hide Move, Achieved, Between, Evolves, AliasesMatch, ObservationsMatch, Keyed, WellKeyed;
    MoveKeepsConsistent(outbox, plan, t, p, after, q);
    MoveAchieves(outbox, plan, t, p, after, q);
    BetweenSurvives(s, plan, t, after);
  }

  lemma RunStarts(outbox: bool, s: Tables, plan: Plan, definitions: seq<SurfaceIdentity>, keys: seq<SurfaceIdentity>)
    requires Consistent(s) && WellKeyed(plan) && Ids(definitions, s.entries.Keys) && Ids(keys, plan.entries.Keys)
    ensures Underway(s, plan, s, Upserting(definitions, keys)) && Ids(keys, plan.entries.Keys)
  {
    BetweenStart(s, plan);
    hide Between, Consistent;
    assert Achieved(plan, s, Waiting);
    RunMove(outbox, s, plan, s, Waiting, s, Upserting(definitions, keys));
  }

  lemma UpsertingIsPlanned(plan: Plan, t: Tables, p: Progress)
    requires Achieved(plan, t, p) && p.Upserting?
    ensures forall id | id in p.todo :: id in plan.entries
  {
    hide Holds, TrimmedIdentity;
  }

  lemma RunUpserts(outbox: bool, s: Tables, plan: Plan, t: Tables, definitions: seq<SurfaceIdentity>,
            keys: seq<SurfaceIdentity>, i: nat)
    requires i < |keys| && Underway(s, plan, t, Upserting(definitions, keys[i..]))
    ensures keys[i] in plan.entries
    ensures var after := Upsert(t, Some(plan.entries[keys[i]]), outbox);
            after.Some? ==> Underway(s, plan, after.value, Upserting(definitions, keys[i + 1..]))
  {
    var todo := keys[i..];
    assert todo[0] == keys[i] && todo[1..] == keys[i + 1..] && todo[0] in todo;
    UpsertingIsPlanned(plan, t, Upserting(definitions, todo));
    hide Between, Consistent, Upsert, Underway, WellKeyed;
    var after := Upsert(t, Some(plan.entries[keys[i]]), outbox);
    if after.Some? {
      RunMove(outbox, s, plan, t, Upserting(definitions, keys[i..]), after.value,
              Upserting(definitions, keys[i + 1..]));
    }
  }

  lemma RunTurns(outbox: bool, s: Tables, plan: Plan, t: Tables, definitions: seq<SurfaceIdentity>,
            keys: seq<SurfaceIdentity>)
    requires Underway(s, plan, t, Upserting(definitions, keys[|keys|..]))
    ensures Underway(s, plan, t, Deleting(definitions[0..]))
  {
    assert keys[|keys|..] == [] && definitions[0..] == definitions;
    hide Underway;
    RunMove(outbox, s, plan, t, Upserting(definitions, []), t, Deleting(definitions));
  }

  lemma RunDeletes(outbox: bool, s: Tables, plan: Plan, t: Tables, definitions: seq<SurfaceIdentity>, i: nat,
            after: Tables)
    requires i < |definitions| && Underway(s, plan, t, Deleting(definitions[i..]))
    requires after == if definitions[i] !in plan.entries && !ShouldKeepManagedDefinition(definitions[i].vendorID, plan)
                      then Delete(t, definitions[i], outbox) else t
    ensures Underway(s, plan, after, Deleting(definitions[i + 1..]))
  {
    assert definitions[i..][0] == definitions[i] && definitions[i..][1..] == definitions[i + 1..];
    hide Underway, Delete, ShouldKeepManagedDefinition;
    RunMove(outbox, s, plan, t, Deleting(definitions[i..]), after, Deleting(definitions[i + 1..]));
  }

  lemma RunEnds(outbox: bool, s: Tables, plan: Plan, t: Tables, definitions: seq<SurfaceIdentity>)
    requires Underway(s, plan, t, Deleting(definitions[|definitions|..]))
    ensures Reconciled(s, plan, t)
  {
    assert definitions[|definitions|..] == [];
    RunMove(outbox, s, plan, t, Deleting([]), t, Completed);
    hide Between, Achieved, Consistent, Reconciled;
    CompletedIsReconciled(s, plan, t);
  }

  lemma UnderwayIsBetween(s: Tables, plan: Plan, t: Tables, p: Progress)
    requires Underway(s, plan, t, p)
    ensures Consistent(t) && Between(s, plan, t)
  {
  }

  method SortKeys(keys: set<SurfaceIdentity>) returns (sorted: seq<SurfaceIdentity>)
    ensures Ids(sorted, keys) && Distinct(sorted)
  {
    IdentitiesAreOrdered();
    hide IdentityLess;
    sorted := OrderBy(IdentityLess, keys);
    SortedIsDistinct(IdentityLess, sorted);
  }

  method HasDuplicates(ids: seq<SurfaceIdentity>) returns (found: bool)
    ensures found <==> !Distinct(ids)
  {
    var seen: set<SurfaceIdentity> := {};
    for i := 0 to |ids|
      invariant forall x :: x in seen <==> x in ids[..i]
      invariant Distinct(ids[..i])
    {
      if ids[i] in seen {
        ghost var j :| 0 <= j < i && ids[..i][j] == ids[i];
        assert ids[j] == ids[i];
        return true;
      }
      assert ids[..i + 1] == ids[..i] + [ids[i]];
      seen := seen + {ids[i]};
    }
    assert ids[..|ids|] == ids;
    found := false;
  }

  /** Lists the stored models, looking for duplicates; a table keyed by identity has none. */
  method ListDefinitions(entries: map<SurfaceIdentity, Row>) returns (definitions: seq<SurfaceIdentity>, ok: bool)
    ensures Ids(definitions, entries.Keys) && ok
  {
    definitions := SortKeys(entries.Keys);
    var duplicates := HasDuplicates(definitions);
    ok := !duplicates;
  }

  /** Every planned entry names a model for each of its sources, so that its upsert cannot fail. */
  ghost predicate Applicable(plan: Plan) {
    forall id | id in plan.entries :: Insertable(plan.entries[id])
  }

  ghost predicate Insertable(e: RegistryEntry) {
    forall o | o in NormalizeObservations(e.sources) :: o.sourceModelID != ""
  }

  lemma InsertableUpserts(t: Tables, e: RegistryEntry, outbox: bool)
    requires IdentityOf(e.definition).Some?
    ensures Upsert(t, Some(e), outbox).Some? <==> Insertable(e)
  {
    ReplacedRows(t.observations, IdentityOf(e.definition).value, e.sources);
    hide IdentityOf, NormalizeObservations, ReplacedObservations, CleanAliases, NormalizeBadges, NormalizePricing,
      Observed;
  }

  lemma PlannedUpserts(plan: Plan, t: Tables, id: SurfaceIdentity, outbox: bool)
    requires WellKeyed(plan) && id in plan.entries
    ensures Applicable(plan) ==> Upsert(t, Some(plan.entries[id]), outbox).Some?
  {
    hide Upsert, Insertable, IdentityOf;
    InsertableUpserts(t, plan.entries[id], outbox);
  }

  method UpsertCollected(store: PostgresModelRegistry, plan: Plan, ghost s: Tables,
            ghost definitions: seq<SurfaceIdentity>, keys: seq<SurfaceIdentity>)
    returns (ok: bool)
    requires Underway(s, plan, store.State(), Upserting(definitions, keys))
    modifies store
    ensures Consistent(store.State()) && Between(s, plan, store.State())
    ensures ok ==> Underway(s, plan, store.State(), Deleting(definitions))
    ensures Applicable(plan) ==> ok
  {
    assert WellKeyed(plan);
    hide *;
    assert keys[0..] == keys;
    for i := 0 to |keys|
      invariant Underway(s, plan, store.State(), Upserting(definitions, keys[i..]))
    {
      ghost var t := store.State();
      RunUpserts(store.outbox, s, plan, t, definitions, keys, i);
      UnderwayIsBetween(s, plan, t, Upserting(definitions, keys[i..]));
      PlannedUpserts(plan, t, keys[i], store.outbox);
      var done := store.UpsertManagedDefinition(Some(plan.entries[keys[i]]));
      if !done { return false; }
    }
    RunTurns(store.outbox, s, plan, store.State(), definitions, keys);
    assert definitions[0..] == definitions;
    UnderwayIsBetween(s, plan, store.State(), Deleting(definitions));
    ok := true;
  }

  method DeleteStale(store: PostgresModelRegistry, plan: Plan, ghost s: Tables, definitions: seq<SurfaceIdentity>)
    requires Underway(s, plan, store.State(), Deleting(definitions))
    modifies store
    ensures Consistent(store.State()) && Between(s, plan, store.State()) && Reconciled(s, plan, store.State())
  {
    hide *;
    assert definitions[0..] == definitions;
    for i := 0 to |definitions|
      invariant Underway(s, plan, store.State(), Deleting(definitions[i..]))
    {
      ghost var t := store.State();
      if definitions[i] !in plan.entries && !ShouldKeepManagedDefinition(definitions[i].vendorID, plan) {
        store.DeleteManagedDefinition(definitions[i]);
      }
      RunDeletes(store.outbox, s, plan, t, definitions, i, store.State());
    }
    RunEnds(store.outbox, s, plan, store.State(), definitions);
    UnderwayIsBetween(s, plan, store.State(), Deleting(definitions[|definitions|..]));
  }

  /** One run on its own. It may stop early on a failing upsert, or complete; either way it has only
      made moves of the plan. */
  method Sync(store: PostgresModelRegistry, plan: Plan) returns (ok: bool)
    requires Consistent(store.State()) && WellKeyed(plan)
    modifies store
    ensures Consistent(store.State()) && Between(old(store.State()), plan, store.State())
    ensures ok ==> Reconciled(old(store.State()), plan, store.State())
    ensures Applicable(plan) ==> ok
  {
    ghost var s := store.State();
    BetweenStart(s, plan);
    var definitions, listed := ListDefinitions(store.entries);
    if !listed { return false; }
    var keys := SortKeys(plan.entries.Keys);
    hide Consistent, WellKeyed, Between, Underway, Reconciled, Ids, Applicable;
    RunStarts(store.outbox, s, plan, definitions, keys);
    ok := UpsertCollected(store, plan, s, definitions, keys);
    if ok { DeleteStale(store, plan, s, definitions); }
  }
}
