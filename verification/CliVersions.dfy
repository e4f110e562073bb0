/** Keeping track of the official versions of the configured CLIs (cliversions/syncer.go,
    cliversions/source.go, cliversions/postgres_store.go). */
module CliVersions {
  import opened Text
  import opened EntryMerge

  datatype Snapshot = Snapshot(version: string, updatedAt: int)

  type Versions = map<string, Snapshot>

  /** The snapshot of a CLI that has none, and the time of one that was stored without. */
  const NO_SNAPSHOT: Snapshot := Snapshot("", 0)

  // ---- Sources ----------------------------------------------------------------------------------

  datatype OfficialSource = NoSource | NPMDistTag(packageName: string, distTag: string) | HomebrewCask(cask: string)
      | Unsupported

  datatype CLI = CLI(id: string, source: OfficialSource)

  /** Where to ask for the version of a CLI. */
  datatype Source = NPM(cliID: string, packageName: string, distTag: string) | Homebrew(cliID: string, cask: string)

  datatype SourceResult = Missing | Broken | Resolved(source: Source)

  function ResolveSource(cli: CLI): SourceResult {
    var id := TrimSpace(cli.id);
    match cli.source
    case NoSource => Missing
    case NPMDistTag(name, tag) =>
      if Blank(name) then Broken
      else Resolved(NPM(id, TrimSpace(name), if Blank(tag) then "latest" else TrimSpace(tag)))
    case HomebrewCask(cask) => if Blank(cask) then Broken else Resolved(Homebrew(id, TrimSpace(cask)))
    case Unsupported => Broken
  }

  // ---- One sync ---------------------------------------------------------------------------------

  datatype VersionChange = VersionChange(id: string, previous: Snapshot, current: Snapshot)

  /** What the fetcher answers for a source at the moment: a trimmed version, or a failure. */
  type Fetch = Source -> Option<string>

  ghost predicate Proper(fetch: Fetch) {
    forall s :: fetch(s).Some? ==> TrimSpace(fetch(s).value) == fetch(s).value != ""
  }

  /** How far a sync has come: the next versions, the configured ids, the changes and the errors. */
  datatype Progress = Progress(next: Versions, configured: set<string>, changes: seq<VersionChange>, errors: nat)

  function At(v: Versions, id: string): Option<Snapshot> {
    if id in v then Some(v[id]) else None
  }

  /** The snapshot a change starts from. */
  function Known(v: Versions, id: string): Snapshot {
    if id in v then v[id] else NO_SNAPSHOT
  }

  function Process(current: Versions, p: Progress, cli: CLI, fetch: Fetch, now: int): Progress {
    var id := TrimSpace(cli.id);
    match ResolveSource(cli)
    case Broken => p.(errors := p.errors + 1)
    case Missing => if id == "" then p else p.(next := p.next - {id})
    case Resolved(source) =>
      if id == "" then p else
        var q := p.(configured := p.configured + {id});
        match fetch(source)
        case None => q.(errors := q.errors + 1)
        case Some(version) =>
          if id in current && current[id].version == version then q.(next := q.next[id := current[id]])
          else q.(next := q.next[id := Snapshot(version, now)],
                  changes := q.changes + [VersionChange(id, Known(current, id), Snapshot(version, now))])
  }

  function ProcessAll(current: Versions, clis: seq<CLI>, fetch: Fetch, now: int): Progress {
    if clis == [] then Progress(current, {}, [], 0)
    else Process(current, ProcessAll(current, clis[..|clis| - 1], fetch, now), clis[|clis| - 1], fetch, now)
  }

  function Restricted(v: Versions, ids: set<string>): Versions {
    map id | id in v && id in ids :: v[id]
  }

  /** The versions after a sync. */
  function Synced(current: Versions, clis: seq<CLI>, fetch: Fetch, now: int): Versions {
    var p := ProcessAll(current, clis, fetch, now);
    Restricted(p.next, p.configured)
  }

  function Changes(current: Versions, clis: seq<CLI>, fetch: Fetch, now: int): seq<VersionChange> {
    ProcessAll(current, clis, fetch, now).changes
  }

  // ---- The store --------------------------------------------------------------------------------

  datatype Stored = Stored(id: string, version: string, updatedAt: Option<int>)

  type Rows = map<string, Stored>

  /** Versions that survive a trip through the store. */
  predicate WellFormed(v: Versions) {
    forall id | id in v :: TrimSpace(id) == id != "" && TrimSpace(v[id].version) == v[id].version != ""
  }

  function EffectiveID(rowID: string, row: Stored): string {
    if Blank(row.id) then TrimSpace(rowID) else TrimSpace(row.id)
  }

  /** Every row holds the record of its own id. */
  predicate Faithful(rows: Rows) {
    forall id | id in rows :: EffectiveID(id, rows[id]) == id != ""
  }

  function Loaded(row: Stored): Snapshot {
    Snapshot(TrimSpace(row.version), if row.updatedAt.Some? then row.updatedAt.value else 0)
  }

  function LoadOf(rows: Rows): Versions {
    map id | id in rows && !Blank(rows[id].version) :: Loaded(rows[id])
  }

  function Record(id: string, s: Snapshot): Stored {
    Stored(id, TrimSpace(s.version), Some(s.updatedAt))
  }

  function RowsOf(v: Versions): Rows {
    map id | id in v :: Record(id, v[id])
  }

  /** Of rows that hold the record of their own id, those with a version are loaded, trimmed, with their time, or
      zero without one. */
  lemma LoadedMeans(rows: Rows, id: string)
    ensures (id in LoadOf(rows) <==> id in rows && !Blank(rows[id].version))
    ensures id in LoadOf(rows) ==>
              && LoadOf(rows)[id].version == TrimSpace(rows[id].version)
              && LoadOf(rows)[id].updatedAt == match rows[id].updatedAt case None => 0 case Some(time) => time
  {
    hide TrimSpace;
  }

  function LoadedExcept(rows: Rows, rest: set<string>): Versions {
    map id | id in rows && id !in rest && !Blank(rows[id].version) :: Loaded(rows[id])
  }

  lemma LoadStep(rows: Rows, rest: set<string>, id: string)
    requires Faithful(rows) && id in rows && id in rest
    ensures EffectiveID(id, rows[id]) == id != ""
    ensures LoadedExcept(rows, rest - {id})
            == if Blank(rows[id].version) then LoadedExcept(rows, rest)
               else LoadedExcept(rows, rest)[id := Loaded(rows[id])]
  {
    hide TrimSpace, Loaded;
  }

  class PostgresStore {
    var rows: Rows

    constructor ()
      ensures rows == map[]
    {
      rows := map[];
    }

    method Load() returns (state: Versions)
      ensures Faithful(rows) ==> state == LoadOf(rows)
    {
      hide TrimSpace;
      state := map[];
      var rest := rows.Keys;
      while rest != {}
        invariant rest <= rows.Keys
        invariant Faithful(rows) ==> state == LoadedExcept(rows, rest)
        decreases |rest|
      {
        var rowID :| rowID in rest;
        if Faithful(rows) { LoadStep(rows, rest, rowID); }
        hide LoadedExcept, Faithful;
        rest := rest - {rowID};
        var id := TrimSpace(rows[rowID].id);
        if id == "" { id := TrimSpace(rowID); }
        if id == "" || TrimSpace(rows[rowID].version) == "" { continue; }
        var updatedAt := if rows[rowID].updatedAt.Some? then rows[rowID].updatedAt.value else 0;
        state := state[id := Snapshot(TrimSpace(rows[rowID].version), updatedAt)];
      }
    }

    /** Writes the rows one by one and then deletes the stale ones; the database may refuse the write or
        the delete of any row. A failed save leaves every row either as it was or as it should be. */
    method Save(state: Versions, refuses: string -> bool) returns (ok: bool)
      requires WellFormed(state)
      modifies this
      ensures ok ==> rows == RowsOf(state)
      ensures forall id :: RowAt(rows, id) == RowAt(old(rows), id) || RowAt(rows, id) == RowAt(RowsOf(state), id)
      ensures (forall id :: !refuses(id)) ==> ok
    {
      hide TrimSpace;
      var rest := state.Keys;
      while rest != {}
        invariant rest <= state.Keys
        invariant forall id | id in state && id !in rest :: RowAt(rows, id) == RowAt(RowsOf(state), id)
        invariant forall id | id !in state || id in rest :: RowAt(rows, id) == RowAt(old(rows), id)
        decreases |rest|
      {
        var cliID :| cliID in rest;
        rest := rest - {cliID};
        var id := TrimSpace(cliID);
        if id == "" || TrimSpace(state[cliID].version) == "" { continue; }
        if refuses(id) { return false; }
        rows := rows[id := Stored(id, TrimSpace(state[cliID].version), Some(state[cliID].updatedAt))];
      }
      ok := DeleteStale(state, refuses);
    }

    method DeleteStale(state: Versions, refuses: string -> bool) returns (ok: bool)
      modifies this
      ensures forall id | id in state :: RowAt(rows, id) == RowAt(old(rows), id)
      ensures forall id | id !in state :: RowAt(rows, id) == RowAt(old(rows), id) || RowAt(rows, id) == None
      ensures ok ==> forall id | id in rows :: id in state
      ensures (forall id :: !refuses(id)) ==> ok
    {
      var records := rows;
      var stale := records.Keys;
      while stale != {}
        invariant stale <= old(rows).Keys
        invariant forall id :: RowAt(rows, id) == if id in state || id in stale then RowAt(old(rows), id) else None
        decreases |stale|
      {
        var id :| id in stale;
        stale := stale - {id};
        if id in state { continue; }
        if refuses(id) { return false; }
        rows := rows - {id};
      }
      ok := true;
    }
  }

  function RowAt(rows: Rows, id: string): Option<Stored> {
    if id in rows then Some(rows[id]) else None
  }

  lemma LoadAfterSave(v: Versions)
    requires WellFormed(v)
    ensures Faithful(RowsOf(v)) && LoadOf(RowsOf(v)) == v
  {
    hide TrimSpace;
  }

  lemma LoadedIsWellFormed(rows: Rows)
    requires Faithful(rows)
    ensures WellFormed(LoadOf(rows))
  {
    forall id | id in LoadOf(rows) ensures TrimSpace(id) == id {
      TrimTwice(rows[id].id);
      TrimTwice(id);
    }
    forall id | id in LoadOf(rows) ensures TrimSpace(LoadOf(rows)[id].version) == LoadOf(rows)[id].version {
      TrimTwice(rows[id].version);
    }
    hide TrimSpace;
  }

  // ---- The sync loop ----------------------------------------------------------------------------

  method ProcessOne(current: Versions, p: Progress, cli: CLI, fetch: Fetch, now: int) returns (q: Progress)
    ensures q == Process(current, p, cli, fetch, now)
  {
    hide TrimSpace, ResolveSource;
    q := p;
    var resolved := ResolveSource(cli);
    if resolved.Broken? { return q.(errors := q.errors + 1); }
    var cliID := TrimSpace(cli.id);
    if cliID == "" { return; }
    if resolved.Missing? { return q.(next := q.next - {cliID}); }
    q := q.(configured := q.configured + {cliID});
    var version := fetch(resolved.source);
    if version.None? { return q.(errors := q.errors + 1); }
    if cliID in current && current[cliID].version == version.value {
      return q.(next := q.next[cliID := current[cliID]]);
    }
    var previous := Known(current, cliID);
    var snapshot := Snapshot(version.value, now);
    q := q.(next := q.next[cliID := snapshot], changes := q.changes + [VersionChange(cliID, previous, snapshot)]);
  }

  method DropUnconfigured(versions: Versions, configured: set<string>) returns (next: Versions)
    ensures next == Restricted(versions, configured)
  {
    next := versions;
    var rest := versions.Keys;
    while rest != {}
      invariant rest <= versions.Keys
      invariant next == map id | id in versions && (id in rest || id in configured) :: versions[id]
      decreases |rest|
    {
      var cliID :| cliID in rest;
      rest := rest - {cliID};
      if cliID !in configured { next := next - {cliID}; }
    }
  }

  method Collect(current: Versions, clis: seq<CLI>, fetch: Fetch, now: int)
    returns (next: Versions, changes: seq<VersionChange>, errors: nat)
    ensures next == Synced(current, clis, fetch, now)
    ensures changes == Changes(current, clis, fetch, now)
  {
    hide Process, Restricted;
    var p := Progress(current, {}, [], 0);
    for i := 0 to |clis|
      invariant p == ProcessAll(current, clis[..i], fetch, now)
    {
      assert clis[..i + 1][..i] == clis[..i];
      p := ProcessOne(current, p, clis[i], fetch, now);
    }
    assert clis[..|clis|] == clis;
    next := DropUnconfigured(p.next, p.configured);
    changes, errors := p.changes, p.errors;
  }

  lemma {:induction false} ProcessedIsWellFormed(current: Versions, clis: seq<CLI>, fetch: Fetch, now: int)
    requires WellFormed(current) && Proper(fetch)
    ensures WellFormed(ProcessAll(current, clis, fetch, now).next)
    decreases |clis|
  {
    if clis != [] {
      hide TrimSpace, ResolveSource, Process, Proper, WellFormed;
      ProcessedIsWellFormed(current, clis[..|clis| - 1], fetch, now);
      ProcessKeepsWellFormed(current, ProcessAll(current, clis[..|clis| - 1], fetch, now), clis[|clis| - 1], fetch,
                             now);
    }
  }

  lemma ProcessKeepsWellFormed(current: Versions, p: Progress, cli: CLI, fetch: Fetch, now: int)
    requires WellFormed(current) && WellFormed(p.next) && Proper(fetch)
    ensures WellFormed(Process(current, p, cli, fetch, now).next)
  {
    TrimTwice(cli.id);
    hide TrimSpace, ResolveSource;
  }

  lemma SyncedIsWellFormed(current: Versions, clis: seq<CLI>, fetch: Fetch, now: int)
    requires WellFormed(current) && Proper(fetch)
    ensures WellFormed(Synced(current, clis, fetch, now))
  {
    ProcessedIsWellFormed(current, clis, fetch, now);
    hide TrimSpace, ProcessAll;
  }

  /** Fetches every configured CLI and saves what is new. Nothing is written when nothing changed, and
      no change is reported when the save fails. */
  method Sync(store: PostgresStore, clis: seq<CLI>, fetch: Fetch, now: int, refuses: string -> bool)
    returns (ok: bool, saved: bool, changes: seq<VersionChange>)
    requires Faithful(store.rows) && Proper(fetch)
    modifies store
    ensures changes == if ok then Changes(LoadOf(old(store.rows)), clis, fetch, now) else []
    ensures saved <==> Synced(LoadOf(old(store.rows)), clis, fetch, now) != LoadOf(old(store.rows))
    ensures !saved ==> store.rows == old(store.rows) && ok
    ensures ok ==> Faithful(store.rows) && LoadOf(store.rows) == Synced(LoadOf(old(store.rows)), clis, fetch, now)
    ensures (forall id :: !refuses(id)) ==> ok
  {
    var current := store.Load();
    LoadedIsWellFormed(store.rows);
    hide Synced, Changes, WellFormed, Faithful, LoadOf, RowsOf, RowAt, Proper;
    var next, found, errors := Collect(current, clis, fetch, now);
    SyncedIsWellFormed(current, clis, fetch, now);
    changes, saved, ok := found, current != next, true;
    if saved {
      ok := store.Save(next, refuses);
      LoadAfterSave(next);
      if !ok { changes := []; }
    }
  }

  // ---- What a sync does to one CLI --------------------------------------------------------------

  ghost predicate DistinctIDs(clis: seq<CLI>) {
    forall i, j | 0 <= i < j < |clis| :: TrimSpace(clis[i].id) == "" || TrimSpace(clis[i].id) != TrimSpace(clis[j].id)
  }

  /** The source of the CLI with that id, if it is configured and resolves. */
  function SourceOf(clis: seq<CLI>, id: string): Option<Source> {
    if clis == [] || id == "" then None
    else if TrimSpace(clis[|clis| - 1].id) == id then
      (match ResolveSource(clis[|clis| - 1]) case Resolved(source) => Some(source) case _ => None)
    else SourceOf(clis[..|clis| - 1], id)
  }

  /** The fetched version, keeping the time of one that has not changed; the previous snapshot if
      fetching failed; nothing for a CLI that is not configured. */
  function SyncedAt(current: Versions, clis: seq<CLI>, fetch: Fetch, now: int, id: string): Option<Snapshot> {
    match SourceOf(clis, id)
    case None => None
    case Some(source) =>
      match fetch(source)
      case None => At(current, id)
      case Some(version) => if id in current && current[id].version == version then Some(current[id])
                            else Some(Snapshot(version, now))
  }

  /** The change reported for a CLI: its version was fetched and differs from the one known. */
  function ChangeOf(current: Versions, clis: seq<CLI>, fetch: Fetch, now: int, id: string): Option<VersionChange> {
    match SourceOf(clis, id)
    case None => None
    case Some(source) =>
      match fetch(source)
      case None => None
      case Some(version) =>
        if id in current && current[id].version == version then None
        else Some(VersionChange(id, Known(current, id), Snapshot(version, now)))
  }

  ghost predicate Names(clis: seq<CLI>, id: string) {
    exists i | 0 <= i < |clis| :: TrimSpace(clis[i].id) == id
  }

  lemma NamesSnoc(clis: seq<CLI>, id: string)
    requires clis != []
    ensures Names(clis, id) <==> Names(clis[..|clis| - 1], id) || TrimSpace(clis[|clis| - 1].id) == id
    ensures DistinctIDs(clis) && id != "" && TrimSpace(clis[|clis| - 1].id) == id ==> !Names(clis[..|clis| - 1], id)
    ensures DistinctIDs(clis) ==> DistinctIDs(clis[..|clis| - 1])
  {
    hide TrimSpace;
    var init, last := clis[..|clis| - 1], clis[|clis| - 1];
    if Names(init, id) { var i :| 0 <= i < |init| && TrimSpace(init[i].id) == id; assert clis[i] == init[i]; }
    if Names(clis, id) {
      var i :| 0 <= i < |clis| && TrimSpace(clis[i].id) == id;
      assert i < |init| ==> init[i] == clis[i];
    }
    assert clis[|clis| - 1] == last;
  }

  ghost predicate Reports(changes: seq<VersionChange>, id: string, c: Option<VersionChange>) {
    && (forall x | x in changes && x.id == id :: c == Some(x))
    && (c.Some? ==> c.value in changes && c.value.id == id)
  }

  /** One CLI: whether it is configured, what becomes of its version, and which change is reported. */
  lemma {:induction false} ProcessedAt(current: Versions, clis: seq<CLI>, fetch: Fetch, now: int, id: string)
    requires DistinctIDs(clis) && id != ""
    ensures var p := ProcessAll(current, clis, fetch, now);
            && (id in p.configured <==> SourceOf(clis, id).Some?)
            && (SourceOf(clis, id).Some? ==> At(p.next, id) == SyncedAt(current, clis, fetch, now, id))
            && Reports(p.changes, id, ChangeOf(current, clis, fetch, now, id))
            && (!Names(clis, id) ==> At(p.next, id) == At(current, id) && SourceOf(clis, id) == None)
    decreases |clis|
  {
    hide TrimSpace, ResolveSource, Names;
    if clis != [] {
      var init, last := clis[..|clis| - 1], clis[|clis| - 1];
      NamesSnoc(clis, id);
      ProcessedAt(current, init, fetch, now, id);
      var before := ProcessAll(current, init, fetch, now);
      if TrimSpace(last.id) == id {
        ProcessOwn(current, before, last, fetch, now, id);
      } else {
        ProcessOther(current, before, last, fetch, now, id);
      }
    }
  }

  lemma ProcessOther(current: Versions, p: Progress, cli: CLI, fetch: Fetch, now: int, id: string)
    requires TrimSpace(cli.id) != id
    ensures var q := Process(current, p, cli, fetch, now);
            && (id in q.configured <==> id in p.configured) && At(q.next, id) == At(p.next, id)
            && forall x: VersionChange | x.id == id :: x in q.changes <==> x in p.changes
  {
    hide TrimSpace, ResolveSource;
  }

  /** The only CLI of that id. */
  lemma ProcessOwn(current: Versions, p: Progress, cli: CLI, fetch: Fetch, now: int, id: string)
    requires TrimSpace(cli.id) == id != "" && id !in p.configured && At(p.next, id) == At(current, id)
    requires forall x | x in p.changes :: x.id != id
    ensures var q := Process(current, p, cli, fetch, now);
            && (id in q.configured <==> SourceOf([cli], id).Some?)
            && (SourceOf([cli], id).Some? ==> At(q.next, id) == SyncedAt(current, [cli], fetch, now, id))
            && Reports(q.changes, id, ChangeOf(current, [cli], fetch, now, id))
  {
    hide TrimSpace, ResolveSource;
  }

  /** A sync maps exactly the configured CLIs, each to the fetched version, or to the previous snapshot
      if fetching failed; a version that has not changed keeps its time; the changes are exactly those
      of the CLIs whose version differs. */
  lemma SyncMeans(current: Versions, clis: seq<CLI>, fetch: Fetch, now: int, id: string)
    requires DistinctIDs(clis) && id != ""
    ensures At(Synced(current, clis, fetch, now), id) == SyncedAt(current, clis, fetch, now, id)
    ensures Reports(Changes(current, clis, fetch, now), id, ChangeOf(current, clis, fetch, now, id))
  {
    ProcessedAt(current, clis, fetch, now, id);
    hide ProcessAll, SourceOf, Names, DistinctIDs, Reports;
  }

  /** A known CLI is dropped exactly when it is not configured or its source does not resolve, and never
      for a failing fetch. */
  lemma DroppedIff(current: Versions, clis: seq<CLI>, fetch: Fetch, now: int, id: string)
    requires DistinctIDs(clis) && id != "" && id in current
    ensures id !in Synced(current, clis, fetch, now) <==> SourceOf(clis, id).None?
  {
    SyncMeans(current, clis, fetch, now, id);
    hide Synced, SourceOf, DistinctIDs, Changes;
  }

  /** What a CLI has after asking a source: nothing new, the version known with its time, or the new version. */
  function Asked(current: Versions, id: string, answer: Option<string>, now: int): Option<Snapshot> {
    match answer
    case None => At(current, id)
    case Some(version) => if id in current && current[id].version == version then At(current, id)
                          else Some(Snapshot(version, now))
  }

  /** The change reported: from the version known, or from none at time zero, to a different one. */
  function Reported(current: Versions, id: string, answer: Option<string>, now: int): Option<VersionChange> {
    match answer
    case None => None
    case Some(version) =>
      if id in current && current[id].version == version then None
      else Some(VersionChange(id, if id in current then current[id] else Snapshot("", 0), Snapshot(version, now)))
  }

  lemma SourceOfOwn(clis: seq<CLI>, i: nat)
    requires DistinctIDs(clis) && i < |clis| && TrimSpace(clis[i].id) != ""
    ensures SourceOf(clis, TrimSpace(clis[i].id))
            == match ResolveSource(clis[i]) case Resolved(source) => Some(source) case _ => None
  {
    hide TrimSpace, ResolveSource;
    if i < |clis| - 1 {
      var init := clis[..|clis| - 1];
      assert DistinctIDs(init) && init[i] == clis[i];
      SourceOfOwn(init, i);
    }
  }

  /** An npm package is asked for by its trimmed name and dist-tag, the tag being `latest` unless named. */
  lemma PackagesAreAsked(current: Versions, clis: seq<CLI>, fetch: Fetch, now: int, i: nat, name: string, tag: string)
    requires DistinctIDs(clis) && i < |clis| && clis[i].source == NPMDistTag(name, tag) && !Blank(name)
    requires !Blank(clis[i].id)
    ensures var id := TrimSpace(clis[i].id);
            var answer := fetch(NPM(id, TrimSpace(name), if Blank(tag) then "latest" else TrimSpace(tag)));
            && At(Synced(current, clis, fetch, now), id) == Asked(current, id, answer, now)
            && Reports(Changes(current, clis, fetch, now), id, Reported(current, id, answer, now))
  {
    SourceOfOwn(clis, i);
    SyncMeans(current, clis, fetch, now, TrimSpace(clis[i].id));
    hide TrimSpace, Synced, Changes, SourceOf, DistinctIDs, Reports;
  }

  /** A Homebrew cask is asked for by its trimmed name. */
  lemma CasksAreAsked(current: Versions, clis: seq<CLI>, fetch: Fetch, now: int, i: nat, cask: string)
    requires DistinctIDs(clis) && i < |clis| && clis[i].source == HomebrewCask(cask) && !Blank(cask)
    requires !Blank(clis[i].id)
    ensures var id := TrimSpace(clis[i].id);
            var answer := fetch(Homebrew(id, TrimSpace(cask)));
            && At(Synced(current, clis, fetch, now), id) == Asked(current, id, answer, now)
            && Reports(Changes(current, clis, fetch, now), id, Reported(current, id, answer, now))
  {
    SourceOfOwn(clis, i);
    SyncMeans(current, clis, fetch, now, TrimSpace(clis[i].id));
    hide TrimSpace, Synced, Changes, SourceOf, DistinctIDs, Reports;
  }

  /** A CLI whose source names no package or cask, is of another kind or is missing has no version, and neither
      has an id that no CLI has. */
  lemma OthersHaveNoVersion(current: Versions, clis: seq<CLI>, fetch: Fetch, now: int, id: string)
    requires DistinctIDs(clis) && id != ""
    requires forall i | 0 <= i < |clis| && TrimSpace(clis[i].id) == id ::
               match clis[i].source
               case NPMDistTag(name, _) => Blank(name)
               case HomebrewCask(cask) => Blank(cask)
               case _ => true
    ensures id !in Synced(current, clis, fetch, now)
    ensures forall c | c in Changes(current, clis, fetch, now) :: c.id != id
  {
    NoSource(clis, id);
    SyncMeans(current, clis, fetch, now, id);
    hide TrimSpace, Synced, Changes, SourceOf, DistinctIDs;
  }

  lemma {:induction false} NoSource(clis: seq<CLI>, id: string)
    requires forall i | 0 <= i < |clis| && TrimSpace(clis[i].id) == id ::
               match clis[i].source
               case NPMDistTag(name, _) => Blank(name)
               case HomebrewCask(cask) => Blank(cask)
               case _ => true
    ensures SourceOf(clis, id) == None
    decreases |clis|
  {
    hide TrimSpace;
    if clis != [] {
      var init := clis[..|clis| - 1];
      forall i | 0 <= i < |init| ensures init[i] == clis[i] {}
      NoSource(init, id);
    }
  }

  lemma OneProcessed(current: Versions, cli: CLI, fetch: Fetch, now: int)
    ensures ProcessAll(current, [cli], fetch, now) == Process(current, Progress(current, {}, [], 0), cli, fetch, now)
  {
    hide Process;
    assert [cli][..0] == [];
  }

  /** The same CLI, known so far: with a source of a kind that is not supported it is dropped, and with one
      that resolves and cannot be fetched it is kept. */
  lemma UnresolvedIsDropped(s: Snapshot, fetch: Fetch, now: int)
    ensures Synced(map["codex" := s], [CLI("codex", Unsupported)], fetch, now) == map[]
    ensures fetch(Homebrew("codex", "codex")) == None
            ==> Synced(map["codex" := s], [CLI("codex", HomebrewCask("codex"))], fetch, now) == map["codex" := s]
  {
    TrimmedIsFixed(IsSpace, "codex");
    hide TrimSpace;
    OneProcessed(map["codex" := s], CLI("codex", Unsupported), fetch, now);
    OneProcessed(map["codex" := s], CLI("codex", HomebrewCask("codex")), fetch, now);
    hide ProcessAll;
  }

  // ---- Runs of syncs ----------------------------------------------------------------------------

  datatype Round = Round(clis: seq<CLI>, fetch: Fetch, now: int)

  function VersionsAfter(start: Versions, rounds: seq<Round>): Versions {
    if rounds == [] then start else
      var last := rounds[|rounds| - 1];
      Synced(VersionsAfter(start, rounds[..|rounds| - 1]), last.clis, last.fetch, last.now)
  }

  /** The change that round `n` reports for a CLI. */
  function ChangeAt(start: Versions, rounds: seq<Round>, n: nat, id: string): Option<VersionChange>
    requires n < |rounds|
  {
    ChangeOf(VersionsAfter(start, rounds[..n]), rounds[n].clis, rounds[n].fetch, rounds[n].now, id)
  }

  lemma VersionsAfterOne(start: Versions, rounds: seq<Round>, n: nat)
    requires n < |rounds|
    ensures VersionsAfter(start, rounds[..n + 1])
            == Synced(VersionsAfter(start, rounds[..n]), rounds[n].clis, rounds[n].fetch, rounds[n].now)
  {
    hide Synced;
    assert rounds[..n + 1][..n] == rounds[..n];
  }

  /** After a change the CLI has the current snapshot; without one it keeps what it has, if anything. */
  lemma RoundAt(start: Versions, rounds: seq<Round>, n: nat, id: string)
    requires n < |rounds| && DistinctIDs(rounds[n].clis) && id != ""
    ensures var after, c := At(VersionsAfter(start, rounds[..n + 1]), id), ChangeAt(start, rounds, n, id);
            if c.Some? then after == Some(c.value.current)
              else after == None || after == At(VersionsAfter(start, rounds[..n]), id)
  {
    VersionsAfterOne(start, rounds, n);
    SyncMeans(VersionsAfter(start, rounds[..n]), rounds[n].clis, rounds[n].fetch, rounds[n].now, id);
    hide Synced, VersionsAfter, SourceOf, Changes, DistinctIDs;
  }

  /** Between a change and the next one the CLI keeps the snapshot it changed to, unless it is removed. */
  lemma {:induction false} KeepsUntilChanged(start: Versions, rounds: seq<Round>, i: nat, j: nat, id: string)
    requires i < j <= |rounds| && (forall r | r in rounds :: DistinctIDs(r.clis)) && id != ""
    requires ChangeAt(start, rounds, i, id).Some?
    requires forall m | i < m < j :: ChangeAt(start, rounds, m, id).None?
    requires forall m | i < m <= j :: id in VersionsAfter(start, rounds[..m])
    ensures At(VersionsAfter(start, rounds[..j]), id) == Some(ChangeAt(start, rounds, i, id).value.current)
    decreases j
  {
    hide VersionsAfter, ChangeAt, DistinctIDs;
    assert rounds[j - 1] in rounds;
    RoundAt(start, rounds, j - 1, id);
    if j - 1 > i {
      assert id in VersionsAfter(start, rounds[..j]) && id in VersionsAfter(start, rounds[..j - 1]);
      KeepsUntilChanged(start, rounds, i, j - 1, id);
    }
  }

  /** Consecutive changes of a CLI chain: each starts from the snapshot the one before ended with, unless
      the CLI was removed in between. */
  lemma ChangesChain(start: Versions, rounds: seq<Round>, i: nat, j: nat, id: string)
    requires i < j < |rounds| && (forall r | r in rounds :: DistinctIDs(r.clis)) && id != ""
    requires ChangeAt(start, rounds, i, id).Some? && ChangeAt(start, rounds, j, id).Some?
    requires forall m | i < m < j :: ChangeAt(start, rounds, m, id).None?
    requires forall m | i < m <= j :: id in VersionsAfter(start, rounds[..m])
    ensures ChangeAt(start, rounds, j, id).value.previous == ChangeAt(start, rounds, i, id).value.current
  {
    KeepsUntilChanged(start, rounds, i, j, id);
    hide VersionsAfter, SourceOf;
  }
}
