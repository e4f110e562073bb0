/** How fast the outbox drains (domainevents/outbox.go, domainevents/publisher.go). */
module Drain {
  import opened Text
  import opened Ordering
  import opened Outbox

  /** The rows after so many fair calls of `PublishPending` with nothing enqueued in between: what the
      method leaves in fair weather, again and again. */
  ghost function AfterCalls(rows: Rows, batchSize: int, calls: nat): Rows {
    if calls == 0 then rows else
      var before := AfterCalls(rows, batchSize, calls - 1);
      PublishedAll(before, Batch(before, batchSize))
  }

  /** An id under which marking looks for its own row. */
  predicate Markable(id: string) {
    TrimSpace(id) == id != ""
  }

  /** No unpublished row is out of reach of its mark. */
  predicate PendingMarkable(rows: Rows) {
    forall id | id in rows && !rows[id].published :: Markable(id)
  }

  lemma OwnMarks(ids: set<string>)
    requires forall id | id in ids :: Markable(id)
    ensures Marks(ids) == ids
  {
    hide TrimSpace;
  }

  lemma MarksAreMarkable(ids: set<string>, id: string)
    requires id in Marks(ids)
    ensures Markable(id)
  {
    var x :| x in ids && TrimSpace(x) != "" && id == TrimSpace(x);
    TrimTwice(x);
    hide TrimSpace;
  }

  lemma BatchIsPrefix(rows: Rows, batchSize: int, p: Position)
    requires p in Queue(rows)
    ensures p.eventID in Batch(rows, batchSize) <==> p in Queue(rows)[..Min(BatchLimit(batchSize), |Queue(rows)|)]
  {
    QueueIsPending(rows);
    hide Queue, PositionLess;
    var q := Queue(rows);
    var next := q[..Min(BatchLimit(batchSize), |q|)];
    forall r | r in next && r.eventID == p.eventID ensures r == p { assert r in q; }
  }

  lemma SortedSplits(q: seq<Position>, m: nat, p: Position)
    requires StrictTotal(PositionLess) && Sorted(PositionLess, q) && m <= |q| && p in q
    ensures p in q[..m] <==> p !in q[m..]
    ensures Sorted(PositionLess, q[m..])
  {
    hide PositionLess;
    assert q == q[..m] + q[m..];
    forall i, j | 0 <= i < m <= j < |q| ensures q[i] != q[j] { assert PositionLess(q[i], q[j]); }
  }

  /** What is left behind the first `n`. */
  function Behind(q: seq<Position>, n: nat): seq<Position> {
    q[Min(n, |q|)..]
  }

  /** A fair call takes exactly the oldest rows off the queue. */
  lemma CallShortensQueue(rows: Rows, batchSize: int)
    requires PendingMarkable(rows)
    ensures PendingMarkable(PublishedAll(rows, Batch(rows, batchSize)))
    ensures Queue(PublishedAll(rows, Batch(rows, batchSize))) == Behind(Queue(rows), BatchLimit(batchSize))
  {
    var after := PublishedAll(rows, Batch(rows, batchSize));
    var q := Queue(rows);
    var m := Min(BatchLimit(batchSize), |q|);
    QueueIsPending(rows);
    QueueIsPending(after);
    BatchIsPending(rows, batchSize);
    OwnMarks(Batch(rows, batchSize));
    hide Queue, PositionLess, StrictTotal, Batch, Marks, Markable;
    forall p ensures p in Queue(after) <==> p in q[m..] {
      if p in q {
        BatchIsPrefix(rows, batchSize, p);
        SortedSplits(q, m, p);
      } else {
        assert p in q[m..] ==> p in q;
      }
    }
    if q != [] { SortedSplits(q, m, q[0]); }
    StrictOrderOf();
    SortedIsUnique(PositionLess, Queue(after), q[m..]);
  }

  lemma StrictOrderOf()
    ensures StrictOrder(PositionLess)
  {
    PositionsAreOrdered();
  }

  function Product(calls: nat, limit: nat): (n: nat)
    ensures n == calls * limit
  {
    calls * limit
  }

  lemma OneMoreBatch(calls: nat, limit: nat)
    requires calls > 0
    ensures Product(calls, limit) == Product(calls - 1, limit) + limit
  {
  }

  /** After k fair calls the queue has lost its k oldest batches. */
  lemma {:induction false} QueueAfterCalls(rows: Rows, batchSize: int, calls: nat)
    requires PendingMarkable(rows)
    ensures PendingMarkable(AfterCalls(rows, batchSize, calls))
    ensures Queue(AfterCalls(rows, batchSize, calls)) == Behind(Queue(rows), Product(calls, BatchLimit(batchSize)))
  {
    hide PublishedAll, Batch, Queue, BatchLimit, PendingMarkable, Behind, Product;
    var q, limit := Queue(rows), BatchLimit(batchSize);
    if calls == 0 {
      NoneBehind(q, limit);
    } else {
      QueueAfterCalls(rows, batchSize, calls - 1);
      CallShortensQueue(AfterCalls(rows, batchSize, calls - 1), batchSize);
      OneMoreBatch(calls, limit);
      Drops(q, Product(calls - 1, limit), limit);
    }
  }

  lemma NoneBehind(q: seq<Position>, limit: nat)
    ensures Behind(q, Product(0, limit)) == q
  {
  }

  lemma Drops(q: seq<Position>, a: nat, b: nat)
    ensures Behind(Behind(q, a), b) == Behind(q, a + b)
  {
  }

  lemma PendingCount(rows: Rows)
    ensures |Queue(rows)| == |Pending(rows)|
  {
    hide PositionLess;
  }

  /** With n unpublished rows, k fair calls empty the outbox exactly when k batches hold n rows: the
      next whole number of batches is enough, and no fewer are. */
  lemma DrainBound(rows: Rows, batchSize: int, calls: nat)
    requires PendingMarkable(rows)
    ensures Pending(AfterCalls(rows, batchSize, calls)) == {} <==> calls * BatchLimit(batchSize) >= |Pending(rows)|
  {
    QueueAfterCalls(rows, batchSize, calls);
    PendingCount(rows);
    PendingCount(AfterCalls(rows, batchSize, calls));
    hide Queue, AfterCalls, Pending, BatchLimit, PendingMarkable;
  }

  // ---- Rows out of reach ------------------------------------------------------------------------

  /** A call leaves ids and ages alone and publishes nothing but what it can mark. */
  lemma CallKeepsUnmarkable(rows: Rows, ids: set<string>)
    ensures Pending(PublishedAll(rows, ids)) <= Pending(rows)
    ensures forall id | id in rows && !rows[id].published && !Markable(id) ::
              id in PublishedAll(rows, ids) && !PublishedAll(rows, ids)[id].published
  {
    forall id | id in Marks(ids) ensures Markable(id) { MarksAreMarkable(ids, id); }
    hide Markable, Marks;
  }

  lemma {:induction false} UnmarkableStays(rows: Rows, batchSize: int, calls: nat, id: string)
    requires id in rows && !rows[id].published && !Markable(id)
    ensures var after := AfterCalls(rows, batchSize, calls); id in after && !after[id].published
  {
    hide PublishedAll, Batch, Markable;
    if calls > 0 {
      UnmarkableStays(rows, batchSize, calls - 1, id);
      var before := AfterCalls(rows, batchSize, calls - 1);
      CallKeepsUnmarkable(before, Batch(before, batchSize));
    }
  }

  /** Fair calls empty the outbox at all exactly if every unpublished row has a trimmed id. */
  lemma DrainsIff(rows: Rows, batchSize: int)
    ensures (exists calls: nat :: Pending(AfterCalls(rows, batchSize, calls)) == {}) <==> PendingMarkable(rows)
  {
    hide AfterCalls, Markable;
    if PendingMarkable(rows) {
      var n := |Pending(rows)|;
      AtLeast(n, BatchLimit(batchSize));
      DrainBound(rows, batchSize, n);
      assert Pending(AfterCalls(rows, batchSize, n)) == {};
    } else {
      var id :| id in rows && !rows[id].published && !Markable(id);
      forall calls: nat ensures Pending(AfterCalls(rows, batchSize, calls)) != {} {
        UnmarkableStays(rows, batchSize, calls, id);
        var after := AfterCalls(rows, batchSize, calls);
        assert Position(after[id].createdAt, id) in Pending(after);
      }
    }
  }

  lemma AtLeast(n: nat, limit: nat)
    requires limit > 0
    ensures n * limit >= n
  {
  }

  /** In a part of an ordered queue an element comes no later than in the whole. */
  lemma {:induction false} ComesNoLater(part: seq<Position>, whole: seq<Position>, j: nat, i: nat)
    requires StrictOrder(PositionLess) && Sorted(PositionLess, part) && Sorted(PositionLess, whole)
    requires forall p | p in part :: p in whole
    requires j < |part| && i < |whole| && part[j] == whole[i]
    ensures j <= i
    decreases i
  {
    hide PositionLess;
    if j > 0 {
      if whole[0] in part {
        HeadIsHead(part, whole);
        assert i > 0;
        forall p | p in part[1..] ensures p in whole[1..] { TailHas(part, p); TailIs(whole, p); }
        ComesNoLater(part[1..], whole[1..], j - 1, i - 1);
      } else {
        assert part[j] in part;
        forall p | p in part ensures p in whole[1..] { TailIs(whole, p); }
        ComesNoLater(part, whole[1..], j, i - 1);
      }
    }
  }

  lemma HeadIsHead(part: seq<Position>, whole: seq<Position>)
    requires StrictOrder(PositionLess) && Sorted(PositionLess, part) && Sorted(PositionLess, whole)
    requires part != [] && whole != [] && whole[0] in part && part[0] in whole
    ensures part[0] == whole[0] && forall i | 0 < i < |part| :: part[i] != whole[0]
  {
    hide PositionLess;
  }

  lemma TailHas(s: seq<Position>, p: Position)
    requires StrictOrder(PositionLess) && Sorted(PositionLess, s) && s != [] && p in s[1..]
    ensures p in s && p != s[0]
  {
    hide PositionLess;
  }

  lemma TailIs(s: seq<Position>, p: Position)
    requires p in s && p != s[0]
    ensures p in s[1..]
  {
  }

  lemma BatchPosition(rows: Rows, batchSize: int, id: string) returns (p: Position, i: nat)
    requires id in Batch(rows, batchSize)
    ensures id in rows && p == Position(rows[id].createdAt, id)
    ensures i < BatchLimit(batchSize) && i < |Queue(rows)| && Queue(rows)[i] == p
  {
    QueueIsPending(rows);
    hide Queue, PositionLess;
    var m := Min(BatchLimit(batchSize), |Queue(rows)|);
    p :| p in Queue(rows)[..m] && p.eventID == id;
    i :| 0 <= i < m && Queue(rows)[..m][i] == p;
    assert Queue(rows)[i] == p && p in Queue(rows);
  }

  lemma PositionInBatch(rows: Rows, batchSize: int, i: nat)
    requires i < BatchLimit(batchSize) && i < |Queue(rows)|
    ensures Queue(rows)[i].eventID in Batch(rows, batchSize)
  {
    hide Queue, PositionLess;
    assert Queue(rows)[..Min(BatchLimit(batchSize), |Queue(rows)|)][i] == Queue(rows)[i];
  }

  lemma StaysAhead(rows: Rows, after: Rows, i: nat) returns (j: nat)
    requires Pending(after) <= Pending(rows) && i < |Queue(rows)| && Queue(rows)[i] in Pending(after)
    ensures j <= i && j < |Queue(after)| && Queue(after)[j] == Queue(rows)[i]
  {
    PositionsAreOrdered();
    hide PositionLess, Pending;
    var q, later := Queue(rows), Queue(after);
    assert (forall p :: p in q <==> p in Pending(rows)) && (forall p :: p in later <==> p in Pending(after));
    assert Sorted(PositionLess, q) && Sorted(PositionLess, later);
    hide Queue, StrictTotal, Sorted;
    StrictOrderOf();
    j :| 0 <= j < |later| && later[j] == q[i];
    ComesNoLater(later, q, j, i);
  }

  lemma ClaimedAgain(rows: Rows, batchSize: int, id: string)
    requires id in Batch(rows, batchSize) && !Markable(id)
    ensures id in Batch(PublishedAll(rows, Batch(rows, batchSize)), batchSize)
  {
    var after := PublishedAll(rows, Batch(rows, batchSize));
    BatchIsPending(rows, batchSize);
    CallKeepsUnmarkable(rows, Batch(rows, batchSize));
    SameAge(rows, Batch(rows, batchSize), id);
    hide Queue, Batch, PublishedAll, Markable, BatchLimit;
    var p, i := BatchPosition(rows, batchSize, id);
    assert p in Pending(after);
    hide Pending;
    var j := StaysAhead(rows, after, i);
    PositionInBatch(after, batchSize, j);
  }

  lemma SameAge(rows: Rows, ids: set<string>, id: string)
    requires id in rows
    ensures PublishedAll(rows, ids)[id].createdAt == rows[id].createdAt
  {
    hide Marks;
  }

  /** A row under an untrimmed id that is claimed once is claimed, and with the broker taking it
      published, by every later fair call for ever; no call marks it. */
  lemma {:induction false} UntrimmedIsRepublished(rows: Rows, batchSize: int, calls: nat, id: string)
    requires id in Batch(rows, batchSize) && !Markable(id)
    ensures id in Batch(AfterCalls(rows, batchSize, calls), batchSize)
    ensures id in AfterCalls(rows, batchSize, calls) && !AfterCalls(rows, batchSize, calls)[id].published
  {
    hide PublishedAll, Batch, Markable;
    BatchIsPending(AfterCalls(rows, batchSize, calls), batchSize);
    if calls > 0 {
      UntrimmedIsRepublished(rows, batchSize, calls - 1, id);
      ClaimedAgain(AfterCalls(rows, batchSize, calls - 1), batchSize, id);
    }
  }

  /** An event whose id begins with a space is such a row: the outbox it is put in never empties. */
  lemma SpacedIDIsStuck(rows: Rows, batchSize: int, calls: nat, now: int)
    requires " 1" !in rows
    ensures Pending(AfterCalls(Enqueued(rows, " 1", "s", now), batchSize, calls)) != {}
  {
    TrimmedIsFixed(IsSpace, "1");
    TrimUnsplits(IsSpace, " ", "1", "");
    assert " " + "1" + "" == " 1" && |" 1"| == 2 && |"1"| == 1;
    var start := Enqueued(rows, " 1", "s", now);
    hide TrimSpace, AfterCalls;
    UnmarkableStays(start, batchSize, calls, " 1");
    var after := AfterCalls(start, batchSize, calls);
    assert Position(after[" 1"].createdAt, " 1") in Pending(after);
  }
}
