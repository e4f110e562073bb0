/** When a published row has been accepted by the stream: exactly when a call of the publisher keeps
    that true, for ids that are not trimmed as well (domainevents/publisher.go). */
module Acceptance {
  import opened Text
  import opened Outbox

  /** No mark fails after the stream has accepted a record. */
  predicate Goes(records: seq<Record>, w: Weather) {
    forall r | r in records :: w.publish(r.eventID) == Done ==> w.mark(r.eventID) == Done
  }

  /** The records a call gets to. */
  function Reached(records: seq<Record>, w: Weather): seq<Record> {
    if records == [] || Goes(records[..|records| - 1], w) then records else Reached(records[..|records| - 1], w)
  }

  predicate Accepts(w: Weather, r: Record) {
    w.publish(r.eventID) != Failed
  }

  predicate Marked(w: Weather, r: Record, id: string) {
    w.publish(r.eventID) == Done && w.mark(r.eventID) != Failed && TrimSpace(r.eventID) == id != ""
  }

  /** The ids a call marks as published. */
  ghost predicate IsMarked(records: seq<Record>, w: Weather, id: string) {
    exists r :: r in records && Marked(w, r, id)
  }

  ghost predicate IsAccepted(records: seq<Record>, w: Weather, record: Record) {
    record in records && Accepts(w, record)
  }

  /** What publishing the records one by one makes of rows and stream. */
  ghost predicate Effect(rows: Rows, stream: set<Record>, records: seq<Record>, w: Weather, after: Sent) {
    && after.rows.Keys == rows.Keys
    && (forall id | id in rows ::
          RecordOf(after.rows, id) == RecordOf(rows, id)
          && (after.rows[id].published <==> rows[id].published || IsMarked(records, w, id)))
    && forall r :: r in after.stream <==> r in stream || IsAccepted(records, w, r)
  }

  lemma NoEffect(rows: Rows, stream: set<Record>, w: Weather, ok: bool)
    ensures Effect(rows, stream, [], w, Sent(rows, stream, ok))
  {
    hide Marked, Accepts;
  }

  lemma OneMarks(rows: Rows, stream: set<Record>, record: Record, w: Weather)
    ensures var after := PublishOne(rows, stream, record, w);
            && after.rows.Keys == rows.Keys
            && (forall id | id in rows ::
                  RecordOf(after.rows, id) == RecordOf(rows, id)
                  && (after.rows[id].published <==> rows[id].published || Marked(w, record, id)))
            && after.stream == stream + (if Accepts(w, record) then {record} else {})
            && (after.ok <==> Goes([record], w))
  {
    hide TrimSpace;
  }

  lemma EffectSnoc(rows: Rows, stream: set<Record>, records: seq<Record>, w: Weather, before: Sent)
    requires records != [] && Effect(rows, stream, records[..|records| - 1], w, before)
    ensures Effect(rows, stream, records, w, PublishOne(before.rows, before.stream, records[|records| - 1], w))
  {
    var init, last := records[..|records| - 1], records[|records| - 1];
    assert forall r :: r in records <==> r in init || r == last;
    OneMarks(before.rows, before.stream, last, w);
    hide PublishOne, Marked, Accepts, RecordOf;
    forall id ensures IsMarked(records, w, id) <==> IsMarked(init, w, id) || Marked(w, last, id) {}
  }

  lemma GoesSnoc(records: seq<Record>, w: Weather)
    requires records != []
    ensures Goes(records, w) <==> Goes(records[..|records| - 1], w) && Goes([records[|records| - 1]], w)
  {
    var init, last := records[..|records| - 1], records[|records| - 1];
    assert forall r :: r in records <==> r in init || r == last;
    assert last in [last];
  }

  lemma GoingReachesAll(records: seq<Record>, w: Weather)
    requires Goes(records, w)
    ensures Reached(records, w) == records
  {
    if records != [] { GoesSnoc(records, w); }
  }

  lemma {:induction false} EachEffect(rows: Rows, stream: set<Record>, records: seq<Record>, w: Weather)
    ensures var after := PublishEach(rows, stream, records, w);
            Effect(rows, stream, Reached(records, w), w, after) && (after.ok <==> Goes(records, w))
    decreases |records|
  {
    if records == [] {
      NoEffect(rows, stream, w, true);
    } else {
      var init, last := records[..|records| - 1], records[|records| - 1];
      EachEffect(rows, stream, init, w);
      GoesSnoc(records, w);
      hide Effect, Goes, PublishOne;
      var before := PublishEach(rows, stream, init, w);
      if before.ok {
        GoingReachesAll(init, w);
        EffectSnoc(rows, stream, records, w, before);
        OneMarks(before.rows, before.stream, last, w);
      }
    }
  }

  /** A call on claimed rows. */
  ghost predicate IsCall(rows: Rows, stream: set<Record>, ids: set<string>, records: seq<Record>) {
    ListsRecords(rows, ids, records) && ids <= rows.Keys && PublishedAreAccepted(rows, stream)
  }

  lemma AttemptsChangeNothing(rows: Rows, ids: set<string>)
    ensures var claimed := Attempted(rows, ids);
            claimed.Keys == rows.Keys
            && forall id | id in rows ::
                 RecordOf(claimed, id) == RecordOf(rows, id) && claimed[id].published == rows[id].published
  {
  }

  /** A call keeps the promise that every published row has been accepted, in whatever order and with
      whatever outcomes, exactly when every row it newly marks is in the stream by then. */
  lemma CallKeepsAcceptedIff(rows: Rows, stream: set<Record>, ids: set<string>, records: seq<Record>, w: Weather)
    requires IsCall(rows, stream, ids, records)
    ensures var after, reached := Called(rows, stream, ids, records, w), Reached(records, w);
            PublishedAreAccepted(after.rows, after.stream)
            <==> (w.connected ==>
                    forall id | id in rows && !rows[id].published && IsMarked(reached, w, id) ::
                      RecordOf(rows, id) in stream || IsAccepted(reached, w, RecordOf(rows, id)))
  {
    var claimed := Attempted(rows, ids);
    AttemptsChangeNothing(rows, ids);
    EachEffect(claimed, stream, records, w);
    NoEffect(claimed, stream, w, false);
    hide Attempted, PublishEach, IsMarked, IsAccepted, ListsRecords, RecordOf;
    assert records == [] ==> Reached(records, w) == [];
    NoneMarked(w);
  }

  lemma NoneMarked(w: Weather)
    ensures forall id :: !IsMarked([], w, id)
    ensures forall r :: !IsAccepted([], w, r)
  {
    hide Marked, Accepts;
  }

  /** Marking the claimed row cannot publish another one that the stream lacks. */
  predicate Harmless(rows: Rows, stream: set<Record>, id: string) {
    var other := TrimSpace(id);
    other in {id, ""} || other !in rows || rows[other].published || RecordOf(rows, other) in stream
  }

  /** The stream accepts this one record and the database marks it; everything else is refused. */
  function Only(id: string): Weather {
    Weather(true, x => if x == id then Done else Failed, x => "", x => Done)
  }

  lemma OnlyGoes(records: seq<Record>, id: string)
    ensures Reached(records, Only(id)) == records
  {
    GoingReachesAll(records, Only(id));
  }

  /** The promise is kept however the calls to broker and database end, exactly when every claimed id is
      trimmed, or its trimmed form is blank, unknown, published already or in the stream already. */
  lemma KeptInAllWeatherIff(rows: Rows, stream: set<Record>, ids: set<string>, records: seq<Record>)
    requires IsCall(rows, stream, ids, records)
    ensures (forall w :: var after := Called(rows, stream, ids, records, w);
                         PublishedAreAccepted(after.rows, after.stream))
            <==> forall id | id in ids :: Harmless(rows, stream, id)
  {
    hide *;
    if id :| id in ids && !Harmless(rows, stream, id) {
      HarmShows(rows, stream, ids, records, id);
      var after := Called(rows, stream, ids, records, Only(id));
      assert !PublishedAreAccepted(after.rows, after.stream);
    }
    if forall id | id in ids :: Harmless(rows, stream, id) {
      forall w ensures var after := Called(rows, stream, ids, records, w);
                       PublishedAreAccepted(after.rows, after.stream)
      {
        HarmlessKeeps(rows, stream, ids, records, w);
      }
    }
  }

  lemma HarmShows(rows: Rows, stream: set<Record>, ids: set<string>, records: seq<Record>, id: string)
    requires IsCall(rows, stream, ids, records) && id in ids && !Harmless(rows, stream, id)
    ensures var after := Called(rows, stream, ids, records, Only(id));
            !PublishedAreAccepted(after.rows, after.stream)
  {
    var w, other := Only(id), TrimSpace(id);
    CallKeepsAcceptedIff(rows, stream, ids, records, w);
    OnlyGoes(records, id);
    hide TrimSpace, Called, PublishedAreAccepted, Reached;
    assert RecordOf(rows, id) in records && Marked(w, RecordOf(rows, id), other);
    assert IsMarked(records, w, other);
    assert !IsAccepted(records, w, RecordOf(rows, other));
  }

  lemma HarmlessKeeps(rows: Rows, stream: set<Record>, ids: set<string>, records: seq<Record>, w: Weather)
    requires IsCall(rows, stream, ids, records) && forall id | id in ids :: Harmless(rows, stream, id)
    ensures var after := Called(rows, stream, ids, records, w); PublishedAreAccepted(after.rows, after.stream)
  {
    CallKeepsAcceptedIff(rows, stream, ids, records, w);
    ReachedAreListed(records, w);
    hide TrimSpace, Called, PublishedAreAccepted, Reached;
    var reached := Reached(records, w);
    forall id | id in rows && !rows[id].published && IsMarked(reached, w, id)
      ensures RecordOf(rows, id) in stream || IsAccepted(reached, w, RecordOf(rows, id))
    {
      var r :| r in reached && Marked(w, r, id);
      assert r in records && Harmless(rows, stream, r.eventID);
    }
  }

  lemma {:induction false} ReachedAreListed(records: seq<Record>, w: Weather)
    ensures forall r | r in Reached(records, w) :: r in records
    decreases |records|
  {
    if records != [] { ReachedAreListed(records[..|records| - 1], w); }
  }

  // ---- A row that is published without having been sent -----------------------------------------

  /** An event under " 1", and a younger one under "1". */
  const TWO_ROWS: Rows := Enqueued(Enqueued(map[], " 1", "s", 0), "1", "s", 1)

  lemma TwoRows()
    ensures TWO_ROWS.Keys == {" 1", "1"} && !TWO_ROWS["1"].published && !TWO_ROWS[" 1"].published
    ensures Pending(TWO_ROWS) == {Position(0, " 1"), Position(1, "1")}
  {
  }

  lemma OldestOfTwo()
    ensures Batch(TWO_ROWS, 1) == {" 1"}
  {
    TwoRows();
    QueueIsPending(TWO_ROWS);
    hide TWO_ROWS, Less;
    var queue := Queue(TWO_ROWS);
    assert |queue| == 2;
    assert Position(0, " 1") in queue;
    assert queue[0] in queue && queue[0] == Position(0, " 1");
    assert queue[..1] == [Position(0, " 1")];
  }

  lemma TrimmedOne()
    ensures TrimSpace(" 1") == "1"
  {
    TrimmedIsFixed(IsSpace, "1");
    assert " " + "1" + "" == " 1";
    TrimUnsplits(IsSpace, " ", "1", "");
  }

  /** Even a fair call on a batch of one publishes the row under "1" that was never sent. */
  lemma UnsentIsMarked(records: seq<Record>, w: Weather)
    requires Fair(w) && ListsRecords(TWO_ROWS, Batch(TWO_ROWS, 1), records)
    ensures var after := Called(TWO_ROWS, {}, Batch(TWO_ROWS, 1), records, w);
            "1" in after.rows && after.rows["1"].published && forall r | r in after.stream :: r.eventID != "1"
  {
    TwoRows();
    OldestOfTwo();
    TrimmedOne();
    hide TWO_ROWS, TrimSpace, Batch;
    var claimed := Attempted(TWO_ROWS, {" 1"});
    AttemptsChangeNothing(TWO_ROWS, {" 1"});
    EachEffect(claimed, {}, records, w);
    GoingReachesAll(records, w);
    hide Attempted, PublishEach, Reached;
    assert RecordOf(TWO_ROWS, " 1") in records && Marked(w, RecordOf(TWO_ROWS, " 1"), "1");
    assert IsMarked(records, w, "1");
  }

  /** The row of a record that is not accepted for certain gets the trimmed error, that of an accepted one is
      published and has none, unless marking fails without effect. */
  lemma OutcomeIsNoted(rows: Rows, stream: set<Record>, record: Record, w: Weather)
    requires w.mark(record.eventID) != Failed
    requires TrimSpace(record.eventID) == record.eventID != "" && record.eventID in rows
    ensures var id, row := record.eventID, rows[record.eventID];
            var after := PublishOne(rows, stream, record, w).rows;
            && after.Keys == rows.Keys
            && after[id] == (if w.publish(id) == Done then row.(published := true, lastError := "")
                             else row.(lastError := TrimSpace(w.error(id))))
            && forall other | other in rows && other != id :: after[other] == rows[other]
  {
    MarksOneRow(rows, record.eventID, w.error(record.eventID), record.eventID);
    forall other | other in rows && other != record.eventID
      ensures MarkedPublished(rows, record.eventID)[other] == rows[other]
      ensures MarkedFailed(rows, record.eventID, w.error(record.eventID))[other] == rows[other]
    {
      MarksOneRow(rows, record.eventID, w.error(record.eventID), other);
    }
    hide MarkedPublished, MarkedFailed, TrimSpace;
  }

  // ---- The older row first ----------------------------------------------------------------------

  /** An event under "b", and a younger one under "a". */
  const OLDER_LAST: Rows := Enqueued(Enqueued(map[], "b", "s", 1), "a", "s", 2)

  lemma OlderLast()
    ensures OLDER_LAST.Keys == {"a", "b"} && OLDER_LAST["b"].createdAt == 1 && OLDER_LAST["a"].createdAt == 2
    ensures !OLDER_LAST["a"].published && !OLDER_LAST["b"].published
  {
  }

  /** Of these a batch of one is the older row, whose id is the larger one. */
  lemma OlderIsClaimed()
    ensures Batch(OLDER_LAST, 1) == {"b"}
  {
    OlderLast();
    BatchIsOldest(OLDER_LAST, 1);
    hide OLDER_LAST, Batch;
    var ids := Batch(OLDER_LAST, 1);
    assert (set id | id in OLDER_LAST && !OLDER_LAST[id].published) == {"a", "b"};
    var id :| id in ids;
    assert ids == {id} by { assert |ids - {id}| == 0; }
    assert id == "a" ==> Older(OLDER_LAST, "a", "b");
  }
}
