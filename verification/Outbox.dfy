/** The transactional outbox and its publisher (domainevents/outbox.go, domainevents/publisher.go). */
module Outbox {
  import opened Text
  import opened Ordering

  /** What a message body decodes to. */
  datatype Payload = Encoded(eventID: string) | Undecodable

  datatype OutboxRow = OutboxRow(createdAt: int, subject: string, payload: Payload, attempts: nat, published: bool,
                                 lastError: string)

  type Rows = map<string, OutboxRow>

  datatype Record = Record(eventID: string, subject: string, payload: Payload)

  /** `normalizeEvent`: only a blank id is replaced; an id is not trimmed. */
  function NormalizedID(eventID: string, nuid: string): string {
    if Blank(eventID) then nuid else eventID
  }

  /** Inserting an id twice does nothing. */
  function Enqueued(rows: Rows, id: string, subject: string, now: int): Rows {
    if id in rows then rows else rows[id := OutboxRow(now, subject, Encoded(id), 0, false, "")]
  }

  function RecordOf(rows: Rows, id: string): Record
    requires id in rows
  {
    Record(id, rows[id].subject, rows[id].payload)
  }

  function Attempted(rows: Rows, ids: set<string>): Rows {
    map id | id in rows :: if id in ids then rows[id].(attempts := rows[id].attempts + 1) else rows[id]
  }

  function MarkedPublished(rows: Rows, eventID: string): Rows {
    var id := TrimSpace(eventID);
    if id == "" || id !in rows then rows else rows[id := rows[id].(published := true, lastError := "")]
  }

  function MarkedFailed(rows: Rows, eventID: string, message: string): Rows {
    var id := TrimSpace(eventID);
    if id == "" || id !in rows then rows else rows[id := rows[id].(lastError := TrimSpace(message))]
  }

  /** Ids that survive the trimming done when they are marked. */
  predicate TrimmedIDs(rows: Rows) {
    forall id | id in rows :: TrimSpace(id) == id != ""
  }

  /** Marking trims the id it is given, and enqueueing does not: a row is marked under its own id
      exactly when the id is trimmed. */
  lemma MarkHitsOwnRowIff(rows: Rows, id: string)
    requires id in rows && !rows[id].published
    ensures MarkedPublished(rows, id)[id].published <==> TrimSpace(id) == id != ""
  {
    hide TrimSpace;
  }

  /** Otherwise it marks another event's row, if there is one under the trimmed id. */
  lemma UntrimmedIDMarksAnother(rows: Rows, id: string)
    requires id in rows && TrimSpace(id) != id && TrimSpace(id) in rows && TrimSpace(id) != ""
    ensures MarkedPublished(rows, id)[id] == rows[id] && MarkedPublished(rows, id)[TrimSpace(id)].published
  {
    hide TrimSpace;
  }

  // ---- The queue --------------------------------------------------------------------------------

  datatype Position = Position(createdAt: int, eventID: string)

  predicate PositionLess(a: Position, b: Position) {
    if a.createdAt != b.createdAt then a.createdAt < b.createdAt else Less(a.eventID, b.eventID)
  }

  lemma PositionsAreOrdered()
    ensures StrictTotal(PositionLess)
  {
    StringsAreOrdered();
    hide Less;
    forall a, b, c | PositionLess(a, b) && PositionLess(b, c) ensures PositionLess(a, c) {}
  }

  function Pending(rows: Rows): set<Position> {
    set id | id in rows && !rows[id].published :: Position(rows[id].createdAt, id)
  }

  /** The unpublished rows by age. */
  ghost function Queue(rows: Rows): seq<Position> {
    PositionsAreOrdered();
    Enumerate(PositionLess, Pending(rows))
  }

  const DEFAULT_BATCH: nat := 32

  function BatchLimit(batchSize: int): (n: nat)
    ensures n > 0
  {
    if batchSize <= 0 then DEFAULT_BATCH else batchSize
  }

  function Min(a: nat, b: nat): nat {
    if a < b then a else b
  }

  function IDs(s: seq<Position>): set<string> {
    set p | p in s :: p.eventID
  }

  /** The oldest unpublished rows, as many as a batch holds. */
  ghost function Batch(rows: Rows, batchSize: int): set<string> {
    IDs(Queue(rows)[..Min(BatchLimit(batchSize), |Queue(rows)|)])
  }

  predicate IsPendingAt(rows: Rows, p: Position) {
    p.eventID in rows && !rows[p.eventID].published && rows[p.eventID].createdAt == p.createdAt
  }

  lemma QueueIsPending(rows: Rows)
    ensures forall p :: p in Queue(rows) <==> IsPendingAt(rows, p)
    ensures Sorted(PositionLess, Queue(rows)) && StrictTotal(PositionLess)
  {
    PositionsAreOrdered();
    hide PositionLess;
  }

  lemma BatchIsPending(rows: Rows, batchSize: int)
    ensures forall id | id in Batch(rows, batchSize) :: id in rows && !rows[id].published
  {
    QueueIsPending(rows);
    hide Queue, PositionLess;
    var q := Queue(rows);
    forall p | p in q[..Min(BatchLimit(batchSize), |q|)] ensures p in q {}
  }

  /** Enqueued earlier, or at the same time under the smaller id. */
  predicate Older(rows: Rows, a: string, b: string)
    requires a in rows && b in rows
  {
    rows[a].createdAt < rows[b].createdAt || (rows[a].createdAt == rows[b].createdAt && Less(a, b))
  }

  /** The ids are unpublished, are as many as a batch holds or else all there are, 32 unless the batch size
      says otherwise, and no id left out is older than one of them. */
  ghost predicate IsOldest(rows: Rows, batchSize: int, ids: set<string>) {
    var unpublished := set id | id in rows && !rows[id].published;
    var limit := if batchSize > 0 then batchSize else 32;
    && ids <= unpublished && |ids| == (if |unpublished| < limit then |unpublished| else limit)
    && forall id, other | id in ids && other in unpublished && other !in ids :: Older(rows, id, other)
  }

  lemma UnpublishedCount(rows: Rows)
    ensures |Pending(rows)| == |set id | id in rows && !rows[id].published|
  {
    var ids := set id | id in rows && !rows[id].published;
    assert Pending(rows) == set id | id in ids :: Position(rows[id].createdAt, id);
    PositionsCount(rows, ids);
  }

  lemma {:induction false} PositionsCount(rows: Rows, ids: set<string>)
    requires ids <= rows.Keys
    ensures |set id | id in ids :: Position(rows[id].createdAt, id)| == |ids|
    decreases |ids|
  {
    if ids != {} {
      var x :| x in ids;
      var rest := ids - {x};
      PositionsCount(rows, rest);
      assert (set id | id in ids :: Position(rows[id].createdAt, id))
             == (set id | id in rest :: Position(rows[id].createdAt, id)) + {Position(rows[x].createdAt, x)};
    }
  }

  lemma {:induction false} IDsCount(s: seq<Position>)
    requires forall i, j | 0 <= i < j < |s| :: s[i].eventID != s[j].eventID
    ensures |IDs(s)| == |s|
  {
    if s != [] {
      var init, last := s[..|s| - 1], s[|s| - 1];
      IDsCount(init);
      assert forall p :: p in s <==> p in init || p == last;
      assert IDs(s) == IDs(init) + {last.eventID};
    }
  }

  lemma QueueHasDistinctIDs(rows: Rows)
    ensures forall i, j | 0 <= i < j < |Queue(rows)| :: Queue(rows)[i].eventID != Queue(rows)[j].eventID
  {
    QueueIsPending(rows);
    hide PositionLess;
    var q := Queue(rows);
    forall i, j | 0 <= i < j < |q| ensures q[i].eventID != q[j].eventID {
      assert q[i] in q && q[j] in q && PositionLess(q[i], q[j]);
    }
  }

  /** A claim takes the oldest unpublished rows. */
  lemma BatchIsOldest(rows: Rows, batchSize: int)
    ensures IsOldest(rows, batchSize, Batch(rows, batchSize))
  {
    QueueIsPending(rows);
    QueueHasDistinctIDs(rows);
    UnpublishedCount(rows);
    var q := Queue(rows);
    var n := Min(BatchLimit(batchSize), |q|);
    assert |q| == |Pending(rows)| by { PositionsAreOrdered(); }
    IDsCount(q[..n]);
    BatchIsPending(rows, batchSize);
    hide Queue, PositionLess, Less;
    forall id, other | id in Batch(rows, batchSize) && other in rows && !rows[other].published
                       && other !in Batch(rows, batchSize)
      ensures id in rows && Older(rows, id, other)
    {
      LeftOutIsYounger(rows, q, n, id, other);
    }
  }

  lemma LeftOutIsYounger(rows: Rows, q: seq<Position>, n: nat, id: string, other: string)
    requires Sorted(PositionLess, q) && n <= |q| && forall p :: p in q <==> IsPendingAt(rows, p)
    requires id in IDs(q[..n]) && other in rows && !rows[other].published && other !in IDs(q[..n])
    ensures id in rows && Older(rows, id, other)
  {
    var p :| p in q[..n] && p.eventID == id;
    var i :| 0 <= i < n && q[..n][i] == p;
    assert q[i] in q;
    var later := Position(rows[other].createdAt, other);
    assert later in q;
    var j :| 0 <= j < |q| && q[j] == later;
    forall k | 0 <= k < n ensures q[k].eventID != other { assert q[..n][k] in q[..n]; }
    assert PositionLess(q[i], q[j]);
  }

  ghost predicate ListsRecords(rows: Rows, ids: set<string>, records: seq<Record>) {
    && Distinct(records)
    && forall r :: r in records <==> r.eventID in ids && r.eventID in rows && r == RecordOf(rows, r.eventID)
  }

  method OldestPending(rows: Rows, batchSize: int) returns (ids: set<string>)
    ensures ids == Batch(rows, batchSize)
  {
    PositionsAreOrdered();
    hide PositionLess, StrictTotal;
    var limit := BatchLimit(batchSize);
    var queue := OrderBy(PositionLess, Pending(rows));
    ids := IDs(queue[..if limit < |queue| then limit else |queue|]);
  }

  method Scan(rows: Rows, ids: set<string>) returns (records: seq<Record>)
    requires ids <= rows.Keys
    ensures ListsRecords(rows, ids, records)
  {
    records := [];
    var rest := ids;
    while rest != {}
      invariant rest <= ids
      invariant ListsRecords(rows, ids - rest, records)
      decreases |rest|
    {
      var id :| id in rest;
      assert RecordOf(rows, id).eventID == id;
      assert ids - (rest - {id}) == ids - rest + {id};
      records := records + [RecordOf(rows, id)];
      rest := rest - {id};
    }
    assert ids - {} == ids;
  }

  // ---- Single rows ------------------------------------------------------------------------------

  /** A claim counts one more attempt of the claimed rows and changes nothing else. */
  lemma AttemptsCounted(rows: Rows, ids: set<string>, id: string)
    requires id in rows
    ensures var after := Attempted(rows, ids);
            && after.Keys == rows.Keys && after[id].(attempts := rows[id].attempts) == rows[id]
            && after[id].attempts == if id in ids then rows[id].attempts + 1 else rows[id].attempts
  {
  }

  /** An event is stored once, under its id or, if that is blank, under the generated one, unpublished, never
      attempted and with itself as payload; the other rows stay. */
  lemma EnqueuedOnce(rows: Rows, eventID: string, nuid: string, subject: string, now: int, id: string)
    ensures var own := if Blank(eventID) then nuid else eventID;
            var after := Enqueued(rows, NormalizedID(eventID, nuid), subject, now);
            && after.Keys == rows.Keys + {own} && (id in rows ==> after[id] == rows[id])
            && (own !in rows ==> after[own] == OutboxRow(now, subject, Encoded(own), 0, false, ""))
  {
    hide TrimSpace;
  }

  /** Marking changes the row under the trimmed id, if there is one: it is published and has no error, or it has
      the trimmed error and is as published as before. */
  lemma MarksOneRow(rows: Rows, eventID: string, message: string, id: string)
    requires id in rows
    ensures var published, failed := MarkedPublished(rows, eventID), MarkedFailed(rows, eventID, message);
            && published.Keys == failed.Keys == rows.Keys
            && published[id] == (if id == TrimSpace(eventID) != "" then rows[id].(published := true, lastError := "")
                                 else rows[id])
            && failed[id] == if id == TrimSpace(eventID) != "" then rows[id].(lastError := TrimSpace(message))
                             else rows[id]
  {
    hide TrimSpace;
  }

  class OutboxTable {
    var rows: Rows

    constructor ()
      ensures rows == map[]
    {
      rows := map[];
    }

    method Enqueue(eventID: string, subject: string, nuid: string, now: int)
      modifies this
      ensures rows == Enqueued(old(rows), NormalizedID(eventID, nuid), subject, now)
    {
      hide TrimSpace;
      var id := eventID;
      if TrimSpace(id) == "" { id := nuid; }
      if id !in rows {
        rows := rows[id := OutboxRow(now, subject, Encoded(id), 0, false, "")];
      }
    }

    /** Claims the oldest unpublished rows. The records come back in no particular order. */
    method Claim(batchSize: int) returns (records: seq<Record>)
      modifies this
      ensures rows == Attempted(old(rows), Batch(old(rows), batchSize))
      ensures ListsRecords(old(rows), Batch(old(rows), batchSize), records)
      ensures IsOldest(old(rows), batchSize, Batch(old(rows), batchSize))
    {
      BatchIsOldest(rows, batchSize);
      var ids := OldestPending(rows, batchSize);
      BatchIsPending(rows, batchSize);
      hide Batch, Attempted, IsOldest;
      records := Scan(rows, ids);
      rows := Attempted(rows, ids);
    }

    method MarkPublished(eventID: string)
      modifies this
      ensures rows == MarkedPublished(old(rows), eventID)
    {
      hide TrimSpace;
      var id := TrimSpace(eventID);
      if id == "" { return; }
      if id in rows { rows := rows[id := rows[id].(published := true, lastError := "")]; }
    }

    method MarkFailed(eventID: string, message: string)
      modifies this
      ensures rows == MarkedFailed(old(rows), eventID, message)
    {
      hide TrimSpace;
      var id := TrimSpace(eventID);
      if id == "" { return; }
      if id in rows { rows := rows[id := rows[id].(lastError := TrimSpace(message))]; }
    }
  }

  // ---- The publisher ----------------------------------------------------------------------------

  /** How a call to the broker or the database ends. An unheard call has done its work, and is reported
      as failed all the same. */
  datatype Reply = Done | Failed | Unheard

  /** What the outside decides: whether the broker can be reached, and how publishing and marking end. */
  datatype Weather = Weather(connected: bool, publish: string -> Reply, error: string -> string, mark: string -> Reply)

  ghost predicate Fair(w: Weather) {
    w.connected && (forall id :: w.publish(id) == Done && w.mark(id) == Done)
  }

  /** The rows and the stream after a call, and whether the call goes on. */
  datatype Sent = Sent(rows: Rows, stream: set<Record>, ok: bool)

  function PublishOne(rows: Rows, stream: set<Record>, record: Record, w: Weather): Sent {
    var id := record.eventID;
    if w.publish(id) == Done then
      Sent(if w.mark(id) == Failed then rows else MarkedPublished(rows, id), stream + {record}, w.mark(id) == Done)
    else
      Sent(if w.mark(id) == Failed then rows else MarkedFailed(rows, id, w.error(id)),
              if w.publish(id) == Failed then stream else stream + {record}, true)
  }

  /** A refused record is skipped; a failing mark ends the call. */
  function PublishEach(rows: Rows, stream: set<Record>, records: seq<Record>, w: Weather): Sent {
    if records == [] then Sent(rows, stream, true) else
      var before := PublishEach(rows, stream, records[..|records| - 1], w);
      if before.ok then PublishOne(before.rows, before.stream, records[|records| - 1], w) else before
  }

  /** A call that has claimed the rows in `ids` and got them in the order of `records`. */
  function Called(rows: Rows, stream: set<Record>, ids: set<string>, records: seq<Record>, w: Weather): Sent {
    if records == [] || w.connected then PublishEach(Attempted(rows, ids), stream, records, w)
    else Sent(Attempted(rows, ids), stream, false)
  }

  class Publisher {
    const outbox: OutboxTable
    const batchSize: int
    var stream: set<Record>

    constructor (o: OutboxTable, size: int)
      ensures outbox == o && batchSize == BatchLimit(size) && stream == {}
    {
      outbox := o;
      batchSize := BatchLimit(size);
      stream := {};
    }

    /** Publishes one claimed record and marks it. */
    method PublishRecord(w: Weather, record: Record) returns (go: bool)
      modifies this`stream, outbox
      ensures Sent(outbox.rows, stream, go) == PublishOne(old(outbox.rows), old(stream), record, w)
    {
      hide MarkedPublished, MarkedFailed;
      var id := record.eventID;
      var published, marked := w.publish(id), w.mark(id);
      if published != Failed { stream := stream + {record}; }
      if published != Done {
        if marked != Failed { outbox.MarkFailed(id, w.error(id)); }
        return true;
      }
      if marked != Failed { outbox.MarkPublished(id); }
      go := marked == Done;
    }

    method PublishRecords(w: Weather, records: seq<Record>) returns (ok: bool)
      modifies this`stream, outbox
      ensures Sent(outbox.rows, stream, ok) == PublishEach(old(outbox.rows), old(stream), records, w)
    {
      hide *;
      ghost var start, sent := outbox.rows, stream;
      NothingSent(start, sent, records, w);
      for i := 0 to |records|
        invariant Sent(outbox.rows, stream, true) == PublishEach(start, sent, records[..i], w)
      {
        EachSnoc(start, sent, records, w, i);
        var go := PublishRecord(w, records[i]);
        if !go {
          StoppedStays(start, sent, records, w, i + 1);
          return false;
        }
      }
      assert records[..|records|] == records;
      ok := true;
    }

    /** Publishes a batch, in the order in which the claim returns it. With all ids trimmed only what was
        accepted becomes published; in fair weather the whole batch does. */
    method PublishPending(w: Weather) returns (ok: bool, ghost records: seq<Record>)
      modifies this`stream, outbox
      ensures ListsRecords(old(outbox.rows), Batch(old(outbox.rows), batchSize), records)
      ensures Sent(outbox.rows, stream, ok)
              == Called(old(outbox.rows), old(stream), Batch(old(outbox.rows), batchSize), records, w)
      ensures TrimmedIDs(old(outbox.rows)) && PublishedAreAccepted(old(outbox.rows), old(stream))
              ==> PublishedAreAccepted(outbox.rows, stream)
      ensures Fair(w) ==> ok && outbox.rows == PublishedAll(old(outbox.rows), Batch(old(outbox.rows), batchSize))
    {
      ghost var before, sent := outbox.rows, stream;
      ghost var ids := Batch(before, batchSize);
      BatchIsPending(before, batchSize);
      hide *;
      var claimed := outbox.Claim(batchSize);
      records := claimed;
      CallFacts(before, sent, ids, records, w);
      CallIsEach(before, sent, ids, records, w);
      if |claimed| == 0 { return true, records; }
      if !w.connected { return false, records; }
      ok := PublishRecords(w, claimed);
    }
  }

  lemma NothingSent(rows: Rows, stream: set<Record>, records: seq<Record>, w: Weather)
    ensures PublishEach(rows, stream, records[..0], w) == Sent(rows, stream, true)
  {
  }

  lemma EachSnoc(rows: Rows, stream: set<Record>, records: seq<Record>, w: Weather, i: nat)
    requires i < |records|
    ensures var before := PublishEach(rows, stream, records[..i], w);
            PublishEach(rows, stream, records[..i + 1], w)
            == if before.ok then PublishOne(before.rows, before.stream, records[i], w) else before
  {
    hide PublishOne;
    assert records[..i + 1][..i] == records[..i];
  }

  lemma CallIsEach(rows: Rows, stream: set<Record>, ids: set<string>, records: seq<Record>, w: Weather)
    ensures Called(rows, stream, ids, records, w)
            == if |records| == 0 then Sent(Attempted(rows, ids), stream, true)
               else if w.connected then PublishEach(Attempted(rows, ids), stream, records, w)
               else Sent(Attempted(rows, ids), stream, false)
  {
    hide Attempted, PublishOne;
  }

  lemma {:induction false} StoppedStays(rows: Rows, stream: set<Record>, records: seq<Record>, w: Weather, i: nat)
    requires i <= |records| && !PublishEach(rows, stream, records[..i], w).ok
    ensures PublishEach(rows, stream, records, w) == PublishEach(rows, stream, records[..i], w)
    decreases |records|
  {
    hide PublishOne;
    if i == |records| {
      assert records[..i] == records;
    } else {
      assert records[..|records| - 1][..i] == records[..i];
      StoppedStays(rows, stream, records[..|records| - 1], w, i);
    }
  }

  // ---- What a call does -------------------------------------------------------------------------

  /** The ids under which marking the rows in `ids` looks them up. */
  function Marks(ids: set<string>): set<string> {
    set id | id in ids && TrimSpace(id) != "" :: TrimSpace(id)
  }

  /** The rows after a batch has been published in full. */
  function PublishedAll(rows: Rows, ids: set<string>): Rows {
    WithMarks(Attempted(rows, ids), Marks(ids))
  }

  function WithMarks(rows: Rows, marks: set<string>): Rows {
    map id | id in rows :: if id in marks then rows[id].(published := true, lastError := "") else rows[id]
  }

  /** Every published row has been accepted by the stream. */
  ghost predicate PublishedAreAccepted(rows: Rows, stream: set<Record>) {
    forall id | id in rows && rows[id].published :: RecordOf(rows, id) in stream
  }

  ghost function RecordIDs(records: seq<Record>): set<string> {
    set r | r in records :: r.eventID
  }

  lemma RecordIDsSnoc(records: seq<Record>)
    requires records != []
    ensures RecordIDs(records) == RecordIDs(records[..|records| - 1]) + {records[|records| - 1].eventID}
  {
    var init, last := records[..|records| - 1], records[|records| - 1];
    assert forall r :: r in records <==> r in init || r == last;
  }

  lemma MarksSnoc(ids: set<string>, id: string)
    ensures Marks(ids + {id}) == Marks(ids) + if TrimSpace(id) == "" then {} else {TrimSpace(id)}
  {
    hide TrimSpace;
  }

  lemma MarkMore(rows: Rows, marks: set<string>, id: string)
    ensures MarkedPublished(WithMarks(rows, marks), id)
            == WithMarks(rows, marks + if TrimSpace(id) == "" then {} else {TrimSpace(id)})
  {
    hide TrimSpace;
  }

  ghost function SetOf(records: seq<Record>): set<Record> {
    set r | r in records
  }

  lemma SetOfSnoc(records: seq<Record>)
    requires records != []
    ensures SetOf(records) == SetOf(records[..|records| - 1]) + {records[|records| - 1]}
  {
    assert forall r :: r in records <==> r in records[..|records| - 1] || r == records[|records| - 1];
  }

  ghost function AllSent(rows: Rows, stream: set<Record>, records: seq<Record>): Sent {
    Sent(WithMarks(rows, Marks(RecordIDs(records))), stream + SetOf(records), true)
  }

  lemma AllSentSnoc(rows: Rows, stream: set<Record>, records: seq<Record>, w: Weather)
    requires records != [] && Fair(w)
    ensures var before, last := AllSent(rows, stream, records[..|records| - 1]), records[|records| - 1];
            PublishOne(before.rows, before.stream, last, w) == AllSent(rows, stream, records)
  {
    var init, last := records[..|records| - 1], records[|records| - 1];
    FairOne(WithMarks(rows, Marks(RecordIDs(init))), stream + SetOf(init), last, w);
    hide TrimSpace, PublishOne, MarkedPublished, WithMarks, Marks, RecordIDs, SetOf, Fair;
    RecordIDsSnoc(records);
    MarksSnoc(RecordIDs(init), last.eventID);
    MarkMore(rows, Marks(RecordIDs(init)), last.eventID);
    SetOfSnoc(records);
    assert (stream + SetOf(init)) + {last} == stream + SetOf(records);
  }

  /** In fair weather every record is accepted and marked, whatever the order. */
  lemma {:induction false} FairEach(rows: Rows, stream: set<Record>, records: seq<Record>, w: Weather)
    requires Fair(w)
    ensures PublishEach(rows, stream, records, w) == AllSent(rows, stream, records)
    decreases |records|
  {
    if records == [] {
      NoMarks(rows);
    } else {
      hide PublishOne, AllSent, Fair;
      FairEach(rows, stream, records[..|records| - 1], w);
      AllSentSnoc(rows, stream, records, w);
      assert AllSent(rows, stream, records[..|records| - 1]).ok by {
        AllSentIsOk(rows, stream, records[..|records| - 1]);
      }
    }
  }

  lemma AllSentIsOk(rows: Rows, stream: set<Record>, records: seq<Record>)
    ensures AllSent(rows, stream, records).ok
  {
    hide WithMarks, SetOf;
  }

  lemma FairOne(rows: Rows, stream: set<Record>, record: Record, w: Weather)
    requires Fair(w)
    ensures PublishOne(rows, stream, record, w) == Sent(MarkedPublished(rows, record.eventID), stream + {record}, true)
  {
    hide MarkedPublished, MarkedFailed;
  }

  lemma NoMarks(rows: Rows)
    ensures WithMarks(rows, Marks(RecordIDs([]))) == rows
  {
  }

  /** Rows keep their ids, subjects and payloads, and only records in the stream become published. */
  ghost predicate Follows(rows: Rows, after: Rows, stream: set<Record>) {
    && after.Keys == rows.Keys
    && forall id | id in after ::
         RecordOf(after, id) == RecordOf(rows, id)
             && (after[id].published ==> rows[id].published || RecordOf(rows, id) in stream)
  }

  lemma OneFollows(rows: Rows, now: Rows, stream: set<Record>, record: Record, w: Weather)
    requires TrimmedIDs(rows) && Follows(rows, now, stream)
    requires record.eventID in rows && record == RecordOf(rows, record.eventID)
    ensures var after := PublishOne(now, stream, record, w);
            Follows(rows, after.rows, after.stream) && stream <= after.stream
  {
    assert TrimSpace(record.eventID) == record.eventID != "";
    hide TrimSpace;
  }

  lemma {:induction false} EachFollows(rows: Rows, stream: set<Record>, records: seq<Record>, w: Weather)
    requires TrimmedIDs(rows) && forall r | r in records :: r.eventID in rows && r == RecordOf(rows, r.eventID)
    ensures var after := PublishEach(rows, stream, records, w);
            Follows(rows, after.rows, after.stream) && stream <= after.stream
    decreases |records|
  {
    if records != [] {
      hide PublishOne, TrimmedIDs, RecordOf;
      var init, last := records[..|records| - 1], records[|records| - 1];
      assert forall r :: r in records <==> r in init || r == last;
      EachFollows(rows, stream, init, w);
      hide Follows;
      var before := PublishEach(rows, stream, init, w);
      OneFollows(rows, before.rows, before.stream, last, w);
    } else {
      hide TrimSpace;
    }
  }

  lemma FollowingKeepsAccepted(rows: Rows, after: Rows, stream: set<Record>, later: set<Record>)
    requires PublishedAreAccepted(rows, stream) && Follows(rows, after, later) && stream <= later
    ensures PublishedAreAccepted(after, later)
  {
  }

  lemma AttemptedIsClaimed(rows: Rows, ids: set<string>, stream: set<Record>, records: seq<Record>)
    requires ListsRecords(rows, ids, records) && ids <= rows.Keys
    ensures PublishedAreAccepted(rows, stream) ==> PublishedAreAccepted(Attempted(rows, ids), stream)
    ensures TrimmedIDs(rows) ==> TrimmedIDs(Attempted(rows, ids))
    ensures forall r | r in records ::
              r.eventID in Attempted(rows, ids) && r == RecordOf(Attempted(rows, ids), r.eventID)
    ensures RecordIDs(records) == ids
  {
    hide TrimSpace;
    var claimed := Attempted(rows, ids);
    forall id | id in rows ensures RecordOf(claimed, id) == RecordOf(rows, id) {}
    forall id | id in ids ensures id in RecordIDs(records) { assert RecordOf(rows, id) in records; }
  }

  /** A call on trimmed ids keeps the promise that published rows were accepted; a call in fair weather
      publishes the batch. */
  lemma CallFacts(rows: Rows, stream: set<Record>, ids: set<string>, records: seq<Record>, w: Weather)
    requires ListsRecords(rows, ids, records) && ids <= rows.Keys
    ensures var after := Called(rows, stream, ids, records, w);
            && (TrimmedIDs(rows) && PublishedAreAccepted(rows, stream)
                ==> PublishedAreAccepted(after.rows, after.stream))
            && (Fair(w) ==> after.ok && after.rows == PublishedAll(rows, ids))
  {
    AttemptedIsClaimed(rows, ids, stream, records);
    hide ListsRecords, Attempted, TrimmedIDs, PublishEach, PublishedAreAccepted, WithMarks, Marks, RecordIDs, RecordOf,
        SetOf;
    var claimed := Attempted(rows, ids);
    if Fair(w) { FairEach(claimed, stream, records, w); }
    if TrimmedIDs(rows) && PublishedAreAccepted(rows, stream) {
      EachFollows(claimed, stream, records, w);
      var after := PublishEach(claimed, stream, records, w);
      hide Follows;
      FollowingKeepsAccepted(claimed, after.rows, stream, after.stream);
    }
  }
}
