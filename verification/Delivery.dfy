/** Outbox, publishers, stream and idempotent consumers together (domainevents/outbox.go,
    domainevents/publisher.go, domainevents/consumer.go): any number of publishers and deliveries
    interleave, fail and crash at any point. */
module Delivery {
  import opened Text
  import opened Outbox

  // ---- One delivery -----------------------------------------------------------------------------

  datatype Disposition = Ack | Nak | Term

  /** Which calls fail while a message is handled. */
  datatype Faults = Faults(check: bool, handler: bool, mark: bool)

  /** What handling one message does: how it is answered, whether the handler was called, whether it
      succeeded, and whether the event is processed afterwards. */
  datatype Outcome = Outcome(disposition: Disposition, invoked: bool, success: bool, processed: bool)

  function HandleOutcome(payload: Payload, processed: bool, f: Faults): Outcome {
    if payload.Undecodable? then Outcome(Term, false, false, processed)
    else if f.check then Outcome(Nak, false, false, processed)
    else if processed then Outcome(Ack, false, false, processed)
    else if f.handler then Outcome(Nak, true, false, processed)
    else if f.mark then Outcome(Nak, true, true, processed)
    else Outcome(Ack, true, true, true)
  }

  /** An undecodable message is terminated. Any other is acknowledged exactly if its event is recorded as
      processed by then, before or by this handling, and no check failed; the handler is called exactly for an
      event found unprocessed. */
  lemma OutcomeMeans(payload: Payload, processed: bool, f: Faults)
    ensures var o := HandleOutcome(payload, processed, f);
            && (o.disposition == Term <==> payload.Undecodable?)
            && (o.disposition == Ack
                <==> payload.Encoded? && !f.check && (processed || (!f.handler && !f.mark)))
            && (o.invoked <==> payload.Encoded? && !f.check && !processed)
            && (o.success <==> o.invoked && !f.handler)
            && (o.processed <==> processed || (o.success && !f.mark))
  {
  }

  /** A durable consumer and the event ids it has recorded as processed. */
  class Consumer {
    var processed: set<string>
    var invoked: seq<string>

    constructor ()
      ensures processed == {} && invoked == []
    {
      processed, invoked := {}, [];
    }

    method CallHandler(eventID: string, fails: bool) returns (ok: bool)
      modifies this`invoked
      ensures invoked == old(invoked) + [eventID] && ok == !fails
    {
      invoked := invoked + [eventID];
      ok := !fails;
    }

    method Handle(payload: Payload, f: Faults) returns (disposition: Disposition)
      modifies this
      ensures var outcome := HandleOutcome(payload, payload.Encoded? && payload.eventID in old(processed), f);
              && disposition == outcome.disposition
              && (payload.Undecodable? ==> processed == old(processed) && invoked == old(invoked))
              && (payload.Encoded? ==>
                    && processed == old(processed) + (if outcome.processed then {payload.eventID} else {})
                    && invoked == old(invoked) + if outcome.invoked then [payload.eventID] else [])
      ensures disposition == Term <==> payload.Undecodable?
      ensures disposition == Ack
              <==> payload.Encoded? && !f.check && (payload.eventID in old(processed) || (!f.handler && !f.mark))
      ensures invoked
              == old(invoked) + if payload.Encoded? && !f.check && payload.eventID !in old(processed)
                                then [payload.eventID] else []
      ensures processed
              == old(processed) + if payload.Encoded? && !f.check && !f.handler && !f.mark
                                  then {payload.eventID} else {}
    {
      if payload.Undecodable? { return Term; }
      if f.check { return Nak; }
      if payload.eventID in processed { return Ack; }
      var ok := CallHandler(payload.eventID, f.handler);
      if !ok { return Nak; }
      if f.mark { return Nak; }
      processed := processed + {payload.eventID};
      disposition := Ack;
    }
  }

  // ---- The system -------------------------------------------------------------------------------

  /** A publisher between two transactions: idle, with records left to publish, or with a record that
      was just accepted or refused and is yet to be marked. */
  datatype PublisherState = Idle | Working(todo: seq<Record>) | Accepted(current: Record, todo: seq<Record>)
      | Refused(current: Record, todo: seq<Record>)

  datatype Stage = Received | Cleared | Succeeded | Marked | Answered(disposition: Disposition) | Dropped

  /** A message handed to a consumer. `invoked` records that this delivery called the handler. */
  datatype Delivered = Delivered(consumer: string, payload: Payload, stage: Stage, invoked: bool)

  datatype Receipt = Receipt(consumer: string, eventID: string)

  /** `calls` records the successful handler calls; it is not part of the program's state. */
  datatype System = System(
    rows: Rows,
    publishers: seq<PublisherState>,
    stream: set<Payload>,
    deliveries: seq<Delivered>,
    processed: set<Receipt>,
    calls: multiset<Receipt>)

  datatype PublisherAct =
    | Claim(records: seq<Record>)
    | Publish
    | Refuse(acceptedAnyway: bool)
    | MarkFailed(message: string, committed: bool)
    | MarkPublished
    | Stop

  datatype DeliveryAct =
    | Reject
    | Check(fails: bool)
    | CallHandler(fails: bool)
    | MarkProcessed(fails: bool, committedAnyway: bool)
    | SendAck
    | Drop

  datatype Step =
    | Enqueue(eventID: string, subject: string, now: int)
    | Inject
    | Deliver(consumer: string, payload: Payload)
    | OfPublisher(p: nat, act: PublisherAct)
    | OfDelivery(d: nat, move: DeliveryAct)

  function ReceiptOf(d: Delivered): Receipt
    requires d.payload.Encoded?
  {
    Receipt(d.consumer, d.payload.eventID)
  }

  predicate IsPending(rows: Rows, r: Record) {
    r.eventID in rows && !rows[r.eventID].published && r == RecordOf(rows, r.eventID)
  }

  predicate PublisherCan(s: System, p: nat, act: PublisherAct) {
    p < |s.publishers| && match act
      case Claim(records) =>
        s.publishers[p].Idle? && forall r | r in records :: IsPending(s.rows, r)
      case Publish => s.publishers[p].Working? && s.publishers[p].todo != []
      case Refuse(_) => s.publishers[p].Working? && s.publishers[p].todo != []
      case MarkFailed(_, _) => s.publishers[p].Refused?
      case MarkPublished => s.publishers[p].Accepted?
      case Stop => true
  }

  predicate DeliveryCan(s: System, d: nat, move: DeliveryAct) {
    d < |s.deliveries| && match move
      case Reject => s.deliveries[d].stage == Received && s.deliveries[d].payload.Undecodable?
      case Check(_) => s.deliveries[d].stage == Received && s.deliveries[d].payload.Encoded?
      case CallHandler(_) => s.deliveries[d].stage == Cleared && s.deliveries[d].payload.Encoded?
      case MarkProcessed(_, _) => s.deliveries[d].stage == Succeeded && s.deliveries[d].payload.Encoded?
      case SendAck => s.deliveries[d].stage == Marked
      case Drop => !s.deliveries[d].stage.Answered?
  }

  /** Event ids are enqueued trimmed. Everything else may happen whenever the program could do it: any
      publisher may stop, any delivery be dropped, and anything in the stream be delivered again and
      again, to any consumer. */
  predicate Enabled(s: System, step: Step) {
    match step
    case Enqueue(id, _, _) => TrimSpace(id) == id != ""
    case Inject => true
    case Deliver(_, payload) => payload in s.stream
    case OfPublisher(p, act) => PublisherCan(s, p, act)
    case OfDelivery(d, move) => DeliveryCan(s, d, move)
  }

  function RecordIDsOf(records: seq<Record>): set<string> {
    set r | r in records :: r.eventID
  }

  function PublisherStep(s: System, p: nat, act: PublisherAct): System
    requires PublisherCan(s, p, act)
  {
    match act
    case Claim(records) =>
      s.(rows := Attempted(s.rows, RecordIDsOf(records)), publishers := s.publishers[p := Working(records)])
    case Publish =>
      var todo := s.publishers[p].todo;
      s.(stream := s.stream + {todo[0].payload}, publishers := s.publishers[p := Accepted(todo[0], todo[1..])])
    case Refuse(acceptedAnyway) =>
      var todo := s.publishers[p].todo;
      s.(stream := s.stream + (if acceptedAnyway then {todo[0].payload} else {}),
          publishers := s.publishers[p := Refused(todo[0], todo[1..])])
    case MarkFailed(message, committed) =>
      var rows := if committed then MarkedFailed(s.rows, s.publishers[p].current.eventID, message) else s.rows;
      s.(rows := rows, publishers := s.publishers[p := Working(s.publishers[p].todo)])
    case MarkPublished =>
      s.(rows := MarkedPublished(s.rows, s.publishers[p].current.eventID),
          publishers := s.publishers[p := Working(s.publishers[p].todo)])
    case Stop => s.(publishers := s.publishers[p := Idle])
  }

  /** A delivery moves on; what else changes is the record of processed events. */
  function DeliveryStep(s: System, d: nat, move: DeliveryAct): System
    requires DeliveryCan(s, d, move)
  {
    var it := s.deliveries[d];
    match move
    case Reject => s.(deliveries := s.deliveries[d := it.(stage := Answered(Term))])
    case Check(fails) =>
      var checked := if ReceiptOf(it) in s.processed then Answered(Ack) else Cleared;
      s.(deliveries := s.deliveries[d := it.(stage := if fails then Answered(Nak) else checked)])
    case CallHandler(fails) =>
      s.(deliveries := s.deliveries[d := it.(invoked := true, stage := if fails then Answered(Nak) else Succeeded)],
         calls := if fails then s.calls else s.calls + multiset{ReceiptOf(it)})
    case MarkProcessed(fails, committedAnyway) =>
      s.(deliveries := s.deliveries[d := it.(stage := if fails then Answered(Nak) else Marked)],
         processed := if fails && !committedAnyway then s.processed else s.processed + {ReceiptOf(it)})
    case SendAck => s.(deliveries := s.deliveries[d := it.(stage := Answered(Ack))])
    case Drop => s.(deliveries := s.deliveries[d := it.(stage := Dropped)])
  }

  function Apply(s: System, step: Step): System
    requires Enabled(s, step)
  {
    match step
    case Enqueue(id, subject, now) => s.(rows := Enqueued(s.rows, id, subject, now))
    case Inject => s.(stream := s.stream + {Undecodable})
    case Deliver(consumer, payload) => s.(deliveries := s.deliveries + [Delivered(consumer, payload, Received, false)])
    case OfPublisher(p, act) => PublisherStep(s, p, act)
    case OfDelivery(d, move) => DeliveryStep(s, d, move)
  }

  function Start(publishers: nat): System {
    System(map[], seq(publishers, _ => Idle), {}, [], {}, multiset{})
  }

  // ---- The invariant ----------------------------------------------------------------------------

  /** The record of an outbox row that is there. */
  ghost predicate Known(rows: Rows, r: Record) {
    r.eventID in rows && r.payload == Encoded(r.eventID)
  }

  ghost predicate OutboxWell(s: System) {
    && TrimmedIDs(s.rows)
    && (forall id | id in s.rows :: s.rows[id].payload == Encoded(id))
    && (forall id | id in s.rows && s.rows[id].published :: Encoded(id) in s.stream)
    && (forall x | x in s.stream && x.Encoded? :: x.eventID in s.rows)
  }

  ghost predicate PublisherWell(s: System, p: PublisherState) {
    match p
    case Idle => true
    case Working(todo) => forall r | r in todo :: Known(s.rows, r)
    case Accepted(current, todo) =>
      Known(s.rows, current) && current.payload in s.stream && forall r | r in todo :: Known(s.rows, r)
    case Refused(current, todo) => Known(s.rows, current) && forall r | r in todo :: Known(s.rows, r)
  }

  ghost predicate DeliveryWell(s: System, d: Delivered) {
    && d.payload in s.stream
    && (d.invoked ==> d.payload.Encoded? && !d.stage.Received? && !d.stage.Cleared?)
    && match d.stage
       case Received => true
       case Cleared => d.payload.Encoded?
       case Succeeded => d.payload.Encoded? && ReceiptOf(d) in s.calls
       case Marked => d.payload.Encoded? && ReceiptOf(d) in s.processed
       case Answered(disposition) =>
         (disposition == Ack ==> d.payload.Encoded? && ReceiptOf(d) in s.processed)
             && (disposition == Term <==> d.payload.Undecodable?)
       case Dropped => true
  }

  ghost predicate Well(s: System) {
    && OutboxWell(s)
    && (forall p | 0 <= p < |s.publishers| :: PublisherWell(s, s.publishers[p]))
    && (forall d | 0 <= d < |s.deliveries| :: DeliveryWell(s, s.deliveries[d]))
    && (forall r | r in s.processed :: r in s.calls)
  }

  lemma StartIsWell(publishers: nat)
    ensures Well(Start(publishers))
  {
  }

  /** What every step only adds to. */
  ghost predicate Grows(a: System, b: System) {
    a.rows.Keys <= b.rows.Keys && a.stream <= b.stream && a.processed <= b.processed && a.calls <= b.calls
  }

  lemma PublisherSurvives(a: System, b: System, p: PublisherState)
    requires PublisherWell(a, p) && Grows(a, b)
    ensures PublisherWell(b, p)
  {
  }

  lemma DeliverySurvives(a: System, b: System, d: Delivered)
    requires DeliveryWell(a, d) && Grows(a, b)
    ensures DeliveryWell(b, d)
  {
  }

  lemma OutboxUntouched(a: System, b: System)
    requires OutboxWell(a) && a.rows == b.rows && a.stream == b.stream
    ensures OutboxWell(b)
  {
    hide TrimSpace;
  }

  lemma OutboxStepIsWell(s: System, step: Step)
    requires Well(s) && Enabled(s, step) && (step.Enqueue? || step.Inject?)
    ensures OutboxWell(Apply(s, step)) && Grows(s, Apply(s, step))
  {
    hide TrimSpace, PublisherWell, DeliveryWell;
  }

  /** Rows keep their ids and payloads, and become published only once accepted. */
  ghost predicate RowsFollow(a: System, b: System) {
    && b.rows.Keys == a.rows.Keys && a.stream <= b.stream
    && (forall id | id in b.rows :: b.rows[id].payload == a.rows[id].payload)
    && (forall id | id in b.rows && b.rows[id].published :: a.rows[id].published || Encoded(id) in b.stream)
    && (forall x | x in b.stream && x !in a.stream && x.Encoded? :: x.eventID in a.rows)
  }

  lemma RowsFollowIsWell(a: System, b: System)
    requires OutboxWell(a) && RowsFollow(a, b)
    ensures OutboxWell(b)
  {
    hide TrimSpace;
  }

  lemma ClaimFollows(s: System, p: nat, records: seq<Record>)
    requires PublisherCan(s, p, Claim(records))
    ensures RowsFollow(s, PublisherStep(s, p, Claim(records)))
  {
  }

  lemma AcceptFollows(s: System, p: nat, act: PublisherAct)
    requires PublisherCan(s, p, act) && (act.Publish? || act.Refuse?) && Known(s.rows, s.publishers[p].todo[0])
    ensures RowsFollow(s, PublisherStep(s, p, act))
  {
  }

  lemma MarkFollows(s: System, p: nat)
    requires OutboxWell(s) && PublisherCan(s, p, MarkPublished) && PublisherWell(s, s.publishers[p])
    ensures RowsFollow(s, PublisherStep(s, p, MarkPublished))
  {
    assert TrimSpace(s.publishers[p].current.eventID) == s.publishers[p].current.eventID;
    hide TrimSpace;
  }

  lemma PublisherRowsFollow(s: System, p: nat, act: PublisherAct)
    requires Well(s) && PublisherCan(s, p, act)
    ensures RowsFollow(s, PublisherStep(s, p, act))
  {
    assert PublisherWell(s, s.publishers[p]);
    hide TrimSpace, DeliveryWell, OutboxWell;
    match act
    case Claim(records) => ClaimFollows(s, p, records);
    case Publish =>
      assert s.publishers[p].todo[0] in s.publishers[p].todo;
      AcceptFollows(s, p, act);
    case Refuse(_) =>
      assert s.publishers[p].todo[0] in s.publishers[p].todo;
      AcceptFollows(s, p, act);
    case MarkPublished => MarkFollows(s, p);
    case _ =>
  }

  lemma ActedIsWell(s: System, p: nat, act: PublisherAct)
    requires PublisherCan(s, p, act) && PublisherWell(s, s.publishers[p])
    requires act.Claim? ==> forall r | r in act.records :: Known(s.rows, r)
    requires RowsFollow(s, PublisherStep(s, p, act))
    ensures var after := PublisherStep(s, p, act); PublisherWell(after, after.publishers[p])
  {
    hide Attempted, MarkedFailed, MarkedPublished;
    if act.Publish? || act.Refuse? {
      assert s.publishers[p].todo[0] in s.publishers[p].todo;
      assert forall r | r in s.publishers[p].todo[1..] :: r in s.publishers[p].todo;
    }
  }

  lemma PublisherStepIsWell(s: System, p: nat, act: PublisherAct)
    requires Well(s) && PublisherCan(s, p, act)
    ensures var after := PublisherStep(s, p, act);
            OutboxWell(after) && Grows(s, after) && PublisherWell(after, after.publishers[p])
  {
    assert PublisherWell(s, s.publishers[p]);
    PublisherRowsFollow(s, p, act);
    if act.Claim? { ClaimedAreKnown(s, p, act); }
    ActedIsWell(s, p, act);
    PublisherStepFrame(s, p, act);
    hide OutboxWell, DeliveryWell, PublisherStep, PublisherWell;
    RowsFollowIsWell(s, PublisherStep(s, p, act));
  }

  lemma ClaimedAreKnown(s: System, p: nat, act: PublisherAct)
    requires OutboxWell(s) && act.Claim? && PublisherCan(s, p, act)
    ensures forall r | r in act.records :: Known(s.rows, r)
  {
    hide TrimSpace;
  }

  lemma DeliveryStepGrows(s: System, d: nat, move: DeliveryAct)
    requires OutboxWell(s) && DeliveryCan(s, d, move)
    ensures OutboxWell(DeliveryStep(s, d, move)) && Grows(s, DeliveryStep(s, d, move))
  {
    hide OutboxWell;
    OutboxUntouched(s, DeliveryStep(s, d, move));
  }

  lemma MovedIsWell(s: System, d: nat, move: DeliveryAct)
    requires DeliveryCan(s, d, move) && DeliveryWell(s, s.deliveries[d])
    ensures var after := DeliveryStep(s, d, move); DeliveryWell(after, after.deliveries[d])
  {
  }

  lemma ProcessedAreCalled(s: System, d: nat, move: DeliveryAct)
    requires DeliveryCan(s, d, move) && DeliveryWell(s, s.deliveries[d]) && forall r | r in s.processed :: r in s.calls
    ensures var after := DeliveryStep(s, d, move); forall r | r in after.processed :: r in after.calls
  {
  }

  lemma DeliveryStepIsWell(s: System, d: nat, move: DeliveryAct)
    requires Well(s) && DeliveryCan(s, d, move)
    ensures var after := DeliveryStep(s, d, move);
            && OutboxWell(after) && Grows(s, after) && DeliveryWell(after, after.deliveries[d])
            && forall r | r in after.processed :: r in after.calls
  {
    assert DeliveryWell(s, s.deliveries[d]);
    hide OutboxWell, PublisherWell, DeliveryWell, DeliveryStep, Grows;
    DeliveryStepGrows(s, d, move);
    MovedIsWell(s, d, move);
    ProcessedAreCalled(s, d, move);
  }

  /** Publishers and deliveries that a step leaves alone stay well. */
  lemma OthersSurvive(a: System, b: System)
    requires Well(a) && Grows(a, b)
    ensures forall p | 0 <= p < |a.publishers| :: PublisherWell(b, a.publishers[p])
    ensures forall d | 0 <= d < |a.deliveries| :: DeliveryWell(b, a.deliveries[d])
  {
    hide OutboxWell, PublisherWell, DeliveryWell, Grows;
    forall p | 0 <= p < |a.publishers| ensures PublisherWell(b, a.publishers[p]) {
      PublisherSurvives(a, b, a.publishers[p]);
    }
    forall d | 0 <= d < |a.deliveries| ensures DeliveryWell(b, a.deliveries[d]) {
      DeliverySurvives(a, b, a.deliveries[d]);
    }
  }

  lemma DeliverIsWell(s: System, consumer: string, payload: Payload)
    requires Well(s) && payload in s.stream
    ensures var after := s.(deliveries := s.deliveries + [Delivered(consumer, payload, Received, false)]);
            Well(after) && Grows(s, after)
  {
    hide PublisherWell;
    var d := Delivered(consumer, payload, Received, false);
    var after := s.(deliveries := s.deliveries + [d]);
    OutboxUntouched(s, after);
    OthersSurvive(s, after);
    assert DeliveryWell(after, d);
    hide OutboxWell, DeliveryWell;
  }

  lemma PublisherKeepsWell(s: System, p: nat, act: PublisherAct)
    requires Well(s) && PublisherCan(s, p, act)
    ensures Well(PublisherStep(s, p, act)) && Grows(s, PublisherStep(s, p, act))
  {
    var after := PublisherStep(s, p, act);
    PublisherStepIsWell(s, p, act);
    PublisherStepFrame(s, p, act);
    OthersSurvive(s, after);
    hide OutboxWell, PublisherWell, DeliveryWell, PublisherStep, PublisherCan;
  }

  lemma PublisherStepFrame(s: System, p: nat, act: PublisherAct)
    requires PublisherCan(s, p, act)
    ensures var after := PublisherStep(s, p, act);
            && after.deliveries == s.deliveries && after.processed == s.processed && after.calls == s.calls
            && |after.publishers| == |s.publishers|
            && forall q | 0 <= q < |s.publishers| && q != p :: after.publishers[q] == s.publishers[q]
  {
    hide Attempted, MarkedFailed, MarkedPublished;
  }

  lemma DeliveryKeepsWell(s: System, d: nat, move: DeliveryAct)
    requires Well(s) && DeliveryCan(s, d, move)
    ensures Well(DeliveryStep(s, d, move)) && Grows(s, DeliveryStep(s, d, move))
  {
    var after := DeliveryStep(s, d, move);
    DeliveryStepIsWell(s, d, move);
    DeliveryStepFrame(s, d, move);
    OthersSurvive(s, after);
    hide OutboxWell, PublisherWell, DeliveryWell, DeliveryStep, DeliveryCan;
  }

  lemma DeliveryStepFrame(s: System, d: nat, move: DeliveryAct)
    requires DeliveryCan(s, d, move)
    ensures var after := DeliveryStep(s, d, move);
            && after.rows == s.rows && after.publishers == s.publishers && after.stream == s.stream
            && |after.deliveries| == |s.deliveries|
            && after.deliveries[d].payload == s.deliveries[d].payload
               && after.deliveries[d].consumer == s.deliveries[d].consumer
            && forall e | 0 <= e < |s.deliveries| && e != d :: after.deliveries[e] == s.deliveries[e]
  {
  }

  lemma OutboxKeepsWell(s: System, step: Step)
    requires Well(s) && Enabled(s, step) && (step.Enqueue? || step.Inject?)
    ensures Well(Apply(s, step)) && Grows(s, Apply(s, step))
  {
    OutboxStepIsWell(s, step);
    OthersSurvive(s, Apply(s, step));
    hide OutboxWell, PublisherWell, DeliveryWell, Enqueued;
  }

  /** Whatever happens next, the invariant stays. */
  lemma StepKeepsWell(s: System, step: Step)
    requires Well(s) && Enabled(s, step)
    ensures Well(Apply(s, step)) && Grows(s, Apply(s, step))
  {
    hide Well, PublisherStep, DeliveryStep, Grows;
    match step
    case Enqueue(_, _, _) => OutboxKeepsWell(s, step);
    case Inject => OutboxKeepsWell(s, step);
    case Deliver(consumer, payload) => DeliverIsWell(s, consumer, payload);
    case OfPublisher(p, act) => PublisherKeepsWell(s, p, act);
    case OfDelivery(d, move) => DeliveryKeepsWell(s, d, move);
  }

  // ---- Executions -------------------------------------------------------------------------------

  ghost predicate Execution(publishers: nat, states: seq<System>, steps: seq<Step>) {
    && |states| == |steps| + 1 && states[0] == Start(publishers)
    && forall i | 0 <= i < |steps| :: Enabled(states[i], steps[i]) && states[i + 1] == Apply(states[i], steps[i])
  }

  lemma {:induction false} ReachableIsWell(publishers: nat, states: seq<System>, steps: seq<Step>, n: nat)
    requires Execution(publishers, states, steps) && n <= |steps|
    ensures Well(states[n])
  {
    hide Well, Enabled, Apply;
    if n == 0 {
      StartIsWell(publishers);
    } else {
      ReachableIsWell(publishers, states, steps, n - 1);
      StepKeepsWell(states[n - 1], steps[n - 1]);
    }
  }

  /** In every reachable state: a row marked published is in the stream, and the stream holds nothing
      that was not enqueued; an acknowledged message has a processed record; a processed record means
      that the handler has succeeded; only undecodable messages are terminated. */
  lemma DeliverySafety(publishers: nat, states: seq<System>, steps: seq<Step>, n: nat)
    requires Execution(publishers, states, steps) && n <= |steps|
    ensures var s := states[n];
            && (forall id | id in s.rows && s.rows[id].published :: Encoded(id) in s.stream)
            && (forall x | x in s.stream && x.Encoded? :: x.eventID in s.rows)
            && (forall d | d in s.deliveries && d.stage == Answered(Ack) ::
                  d.payload.Encoded? && ReceiptOf(d) in s.processed)
            && (forall d | d in s.deliveries && d.stage == Answered(Term) :: d.payload.Undecodable?)
            && (forall r | r in s.processed :: s.calls[r] > 0)
  {
    ReachableIsWell(publishers, states, steps, n);
    hide Execution, TrimSpace, PublisherWell;
  }

  /** The delivery is of a processed event, and has neither called the handler nor been cleared to. */
  ghost predicate Passive(s: System, d: nat) {
    && d < |s.deliveries| && s.deliveries[d].payload.Encoded? && ReceiptOf(s.deliveries[d]) in s.processed
    && !s.deliveries[d].invoked && s.deliveries[d].stage != Cleared && s.deliveries[d].stage != Succeeded
  }

  lemma PassiveStays(s: System, step: Step, d: nat)
    requires Passive(s, d) && Enabled(s, step)
    ensures Passive(Apply(s, step), d)
  {
    hide TrimSpace, Attempted, MarkedPublished, MarkedFailed, Enqueued;
    match step
    case OfPublisher(p, act) =>
      PublisherStepFrame(s, p, act);
      hide PublisherStep;
    case OfDelivery(e, move) => DeliveryStepFrame(s, e, move);
    case _ =>
  }

  lemma ReceivedIsPassive(s: System, d: nat)
    requires Well(s) && d < |s.deliveries| && s.deliveries[d].payload.Encoded? && s.deliveries[d].stage == Received
    requires ReceiptOf(s.deliveries[d]) in s.processed
    ensures Passive(s, d)
  {
    assert DeliveryWell(s, s.deliveries[d]);
  }

  /** A delivery whose check runs after the event was recorded as processed never calls the handler. */
  lemma {:induction false} ProcessedIsNotHandledAgain(publishers: nat, states: seq<System>, steps: seq<Step>, n: nat,
            m: nat, d: nat)
    requires Execution(publishers, states, steps) && n <= m <= |steps| && d < |states[n].deliveries|
    requires var it := states[n].deliveries[d];
             it.payload.Encoded? && it.stage == Received && ReceiptOf(it) in states[n].processed
    ensures Passive(states[m], d)
    decreases m
  {
    hide Well, Enabled, Apply, Passive;
    if n == m {
      ReachableIsWell(publishers, states, steps, n);
      ReceivedIsPassive(states[n], d);
    } else {
      ProcessedIsNotHandledAgain(publishers, states, steps, n, m - 1, d);
      PassiveStays(states[m - 1], steps[m - 1], d);
    }
  }

  // ---- One call on its own ----------------------------------------------------------------------

  /** Taking the steps one after the other leads from `s` to `after`. */
  ghost predicate Reaches(s: System, steps: seq<Step>, after: System)
    decreases |steps|
  {
    if steps == [] then after == s else Enabled(s, steps[0]) && Reaches(Apply(s, steps[0]), steps[1..], after)
  }

  lemma {:induction false} ReachesSnoc(s: System, steps: seq<Step>, mid: System, step: Step)
    requires Reaches(s, steps, mid) && Enabled(mid, step)
    ensures Reaches(s, steps + [step], Apply(mid, step))
    decreases |steps|
  {
    hide Enabled, Apply;
    if steps == [] {
      assert [] + [step] == [step] && [step][1..] == [];
    } else {
      assert (steps + [step])[1..] == steps[1..] + [step] && (steps + [step])[0] == steps[0];
      ReachesSnoc(Apply(s, steps[0]), steps[1..], mid, step);
    }
  }

  lemma {:induction false} ReachesConcat(s: System, a: seq<Step>, mid: System, b: seq<Step>, after: System)
    requires Reaches(s, a, mid) && Reaches(mid, b, after)
    ensures Reaches(s, a + b, after)
    decreases |a|
  {
    hide Enabled, Apply;
    if a == [] {
      assert a + b == b;
    } else {
      assert (a + b)[1..] == a[1..] + b && (a + b)[0] == a[0];
      ReachesConcat(Apply(s, a[0]), a[1..], mid, b, after);
    }
  }

  /** Undisturbed, the steps of a delivery do what `Handle` does. */
  lemma StepsAreHandle(s: System, d: nat, f: Faults) returns (steps: seq<Step>, after: System)
    requires d < |s.deliveries| && s.deliveries[d].stage == Received && !s.deliveries[d].invoked
    ensures Reaches(s, steps, after) && forall i | 0 <= i < |steps| :: steps[i].OfDelivery? && steps[i].d == d
    ensures var it := s.deliveries[d];
            var outcome := HandleOutcome(it.payload, it.payload.Encoded? && ReceiptOf(it) in s.processed, f);
            && after.deliveries
               == s.deliveries[d := it.(stage := Answered(outcome.disposition), invoked := outcome.invoked)]
            && after.processed
               == s.processed + (if it.payload.Encoded? && outcome.processed then {ReceiptOf(it)} else {})
            && after.calls
               == s.calls + (if it.payload.Encoded? && outcome.success then multiset{ReceiptOf(it)} else multiset{})
  {
    hide Reaches;
    ReachesNone(s);
    steps, after := [], s;
    if s.deliveries[d].payload.Undecodable? {
      steps, after := OneMore(s, steps, after, d, Reject);
    } else {
      steps, after := OneMore(s, steps, after, d, Check(f.check));
      if after.deliveries[d].stage == Cleared { steps, after := OneMore(s, steps, after, d, CallHandler(f.handler)); }
      if after.deliveries[d].stage == Succeeded {
        steps, after := OneMore(s, steps, after, d, MarkProcessed(f.mark, false));
      }
      if after.deliveries[d].stage == Marked { steps, after := OneMore(s, steps, after, d, SendAck); }
    }
  }

  lemma OneMore(s: System, steps: seq<Step>, mid: System, d: nat, move: DeliveryAct)
    returns (more: seq<Step>, after: System)
    requires Reaches(s, steps, mid) && DeliveryCan(mid, d, move)
    requires forall i | 0 <= i < |steps| :: steps[i].OfDelivery? && steps[i].d == d
    ensures Reaches(s, more, after) && after == DeliveryStep(mid, d, move)
    ensures forall i | 0 <= i < |more| :: more[i].OfDelivery? && more[i].d == d
  {
    hide Reaches, DeliveryStep, DeliveryCan;
    ReachesSnoc(s, steps, mid, OfDelivery(d, move));
    more, after := steps + [OfDelivery(d, move)], DeliveryStep(mid, d, move);
  }

  function PayloadsOf(records: set<Record>): set<Payload> {
    set r | r in records :: r.payload
  }

  /** The system after publisher `p` has come as far as `sent` in a call that began in `s`. */
  ghost function During(s: System, p: nat, sent: Sent, state: PublisherState): System
    requires p < |s.publishers|
  {
    s.(rows := sent.rows, stream := s.stream + PayloadsOf(sent.stream), publishers := s.publishers[p := state])
  }

  ghost predicate OnlyOf(steps: seq<Step>, p: nat) {
    forall i | 0 <= i < |steps| :: steps[i].OfPublisher? && steps[i].p == p
  }

  lemma OneMoreAct(s: System, steps: seq<Step>, mid: System, p: nat, act: PublisherAct)
    returns (more: seq<Step>, after: System)
    requires Reaches(s, steps, mid) && OnlyOf(steps, p) && PublisherCan(mid, p, act)
    ensures Reaches(s, more, after) && OnlyOf(more, p) && after == PublisherStep(mid, p, act)
  {
    hide Reaches, PublisherStep, PublisherCan;
    ReachesSnoc(s, steps, mid, OfPublisher(p, act));
    more, after := steps + [OfPublisher(p, act)], PublisherStep(mid, p, act);
  }

  lemma MorePayloads(stream: set<Record>, r: Record)
    ensures PayloadsOf(stream + {r}) == PayloadsOf(stream) + {r.payload}
  {
  }

  /** Publishing and marking one record takes two steps, or stops the publisher. */
  lemma StepsArePublishOne(s: System, steps: seq<Step>, p: nat, sent: Sent, todo: seq<Record>, w: Weather)
    returns (more: seq<Step>)
    requires p < |s.publishers| && todo != []
    requires Reaches(s, steps, During(s, p, sent, Working(todo))) && OnlyOf(steps, p)
    ensures var next := PublishOne(sent.rows, sent.stream, todo[0], w);
            Reaches(s, more, During(s, p, next, if next.ok then Working(todo[1..]) else Idle)) && OnlyOf(more, p)
  {
    hide Reaches, OnlyOf, MarkedPublished, MarkedFailed;
    var r := todo[0];
    MorePayloads(sent.stream, r);
    var mid := During(s, p, sent, Working(todo));
    more := steps;
    if w.publish(r.eventID) == Done {
      more, mid := OneMoreAct(s, more, mid, p, Publish);
      if w.mark(r.eventID) != Failed { more, mid := OneMoreAct(s, more, mid, p, MarkPublished); }
      if w.mark(r.eventID) != Done { more, mid := OneMoreAct(s, more, mid, p, Stop); }
    } else {
      more, mid := OneMoreAct(s, more, mid, p, Refuse(w.publish(r.eventID) == Unheard));
      more, mid := OneMoreAct(s, more, mid, p, MarkFailed(w.error(r.eventID), w.mark(r.eventID) != Failed));
    }
    var next := PublishOne(sent.rows, sent.stream, r, w);
    assert mid == During(s, p, next, if next.ok then Working(todo[1..]) else Idle);
  }

  lemma {:induction false} StepsArePublishEach(s: System, steps: seq<Step>, p: nat, rows: Rows, records: seq<Record>,
            n: nat, w: Weather)
    returns (more: seq<Step>)
    requires p < |s.publishers| && n <= |records|
    requires Reaches(s, steps, During(s, p, Sent(rows, {}, true), Working(records))) && OnlyOf(steps, p)
    ensures var sent := PublishEach(rows, {}, records[..n], w);
            Reaches(s, more, During(s, p, sent, if sent.ok then Working(records[n..]) else Idle)) && OnlyOf(more, p)
  {
    hide Reaches, OnlyOf, PublishOne, During;
    if n == 0 {
      more := steps;
      assert records[0..] == records && records[..0] == [];
    } else {
      more := StepsArePublishEach(s, steps, p, rows, records, n - 1, w);
      assert records[..n][..n - 1] == records[..n - 1] && records[n - 1..][1..] == records[n..];
      var sent := PublishEach(rows, {}, records[..n - 1], w);
      if sent.ok { more := StepsArePublishOne(s, more, p, sent, records[n - 1..], w); }
    }
  }

  /** Undisturbed, the steps of a publisher do what `PublishPending` does: the same rows, the same
      messages in the stream, nothing else changed. */
  lemma StepsArePublishPending(s: System, p: nat, ids: set<string>, records: seq<Record>, w: Weather)
    returns (steps: seq<Step>, after: System)
    requires p < |s.publishers| && s.publishers[p].Idle?
    requires ids <= s.rows.Keys && (forall id | id in ids :: !s.rows[id].published)
            && ListsRecords(s.rows, ids, records)
    ensures Reaches(s, steps, after) && OnlyOf(steps, p)
    ensures var sent := Called(s.rows, {}, ids, records, w);
            after == s.(rows := sent.rows, stream := s.stream + PayloadsOf(sent.stream))
  {
    hide Reaches, PublishEach;
    AttemptedIsClaimed(s.rows, ids, {}, records);
    assert RecordIDsOf(records) == ids;
    steps, after := OneMoreAct(s, [], s, p, Claim(records)) by { assert Reaches(s, [], s) by { ReachesNone(s); } }
    hide Attempted, ListsRecords;
    var claimed := Sent(Attempted(s.rows, ids), {}, true);
    assert after == During(s, p, claimed, Working(records));
    var sent := Called(s.rows, {}, ids, records, w);
    if records == [] || w.connected {
      steps := StepsArePublishEach(s, steps, p, claimed.rows, records, |records|, w);
      assert records[..|records|] == records;
      after := During(s, p, sent, if sent.ok then Working(records[|records|..]) else Idle);
    }
    if after.publishers[p] != Idle { steps, after := OneMoreAct(s, steps, after, p, Stop); }
    assert s.publishers[p := Idle] == s.publishers;
  }

  lemma ReachesNone(s: System)
    ensures Reaches(s, [], s)
  {
  }

  // ---- How often the handler succeeds -----------------------------------------------------------

  /** The delivery is between its check and its mark. */
  predicate Open(s: System, d: int, r: Receipt) {
    && 0 <= d < |s.deliveries| && s.deliveries[d].payload.Encoded? && ReceiptOf(s.deliveries[d]) == r
    && (s.deliveries[d].stage == Cleared || s.deliveries[d].stage == Succeeded)
  }

  /** No two deliveries of the event overlap between check and mark. */
  ghost predicate Exclusive(s: System, r: Receipt) {
    forall d, e :: Open(s, d, r) && Open(s, e, r) ==> d == e
  }

  /** A success of the handler is forgotten: the delivery ends without a mark. */
  predicate Forgets(s: System, step: Step, r: Receipt) {
    && step.OfDelivery? && step.d < |s.deliveries| && s.deliveries[step.d].payload.Encoded?
       && ReceiptOf(s.deliveries[step.d]) == r
    && s.deliveries[step.d].stage == Succeeded
    && (step.move == Drop || step.move == MarkProcessed(true, false))
  }

  ghost predicate Once(s: System, r: Receipt) {
    && s.calls[r] <= 1
    && (s.calls[r] == 1 ==> r in s.processed || exists d :: Open(s, d, r) && s.deliveries[d].stage == Succeeded)
    && (forall d | Open(s, d, r) && s.deliveries[d].stage == Cleared :: s.calls[r] == 0)
  }

  lemma OnceStays(s: System, step: Step, r: Receipt)
    requires Once(s, r) && Enabled(s, step) && !Forgets(s, step, r) && Exclusive(Apply(s, step), r)
    ensures Once(Apply(s, step), r)
  {
    var after := Apply(s, step);
    hide TrimSpace, Attempted, MarkedPublished, MarkedFailed, Enqueued;
    match step {
      case OfDelivery(d, move) =>
        DeliveryStepFrame(s, d, move);
        OnceDelivery(s, d, move, r);
      case OfPublisher(p, act) =>
        PublisherStepFrame(s, p, act);
        hide PublisherStep;
        SameDeliveries(s, after, r);
      case Deliver(_, _) => SameDeliveries(s, after, r);
      case _ => SameDeliveries(s, after, r);
    }
  }

  /** Adding a received message, or changing nothing about deliveries, opens none. */
  lemma SameDeliveries(s: System, after: System, r: Receipt)
    requires Once(s, r) && after.calls == s.calls && after.processed == s.processed
    requires |after.deliveries| >= |s.deliveries| && after.deliveries[..|s.deliveries|] == s.deliveries
    requires forall d | |s.deliveries| <= d < |after.deliveries| :: after.deliveries[d].stage == Received
    ensures Once(after, r)
  {
    forall d ensures Open(after, d, r) <==> Open(s, d, r) {
      if 0 <= d < |s.deliveries| { assert after.deliveries[..|s.deliveries|][d] == after.deliveries[d]; }
    }
    forall d | 0 <= d < |s.deliveries| ensures after.deliveries[d] == s.deliveries[d] {
      assert after.deliveries[..|s.deliveries|][d] == after.deliveries[d];
    }
  }

  lemma OnceDelivery(s: System, d: nat, move: DeliveryAct, r: Receipt)
    requires Once(s, r) && DeliveryCan(s, d, move) && !Forgets(s, OfDelivery(d, move), r)
    requires Exclusive(DeliveryStep(s, d, move), r)
    ensures Once(DeliveryStep(s, d, move), r)
  {
    var after := DeliveryStep(s, d, move);
    DeliveryStepFrame(s, d, move);
    forall e | e != d ensures Open(after, e, r) <==> Open(s, e, r) {}
    if s.calls[r] == 1 && r !in s.processed {
      var e :| Open(s, e, r) && s.deliveries[e].stage == Succeeded;
      assert e != d ==> Open(after, e, r) && after.deliveries[e].stage == Succeeded;
    }
    if Open(after, d, r) && after.deliveries[d].stage == Succeeded {
      assert move == CallHandler(false);
      assert Open(s, d, r) && s.deliveries[d].stage == Cleared;
    }
  }

  /** The handler succeeds at most once per consumer and event, as long as deliveries of the event do
      not overlap between check and mark and no success is forgotten. */
  lemma {:induction false} HandledAtMostOnce(publishers: nat, states: seq<System>, steps: seq<Step>, n: nat,
            r: Receipt)
    requires Execution(publishers, states, steps) && n <= |steps|
    requires forall i | 0 <= i <= n :: Exclusive(states[i], r)
    requires forall i | 0 <= i < n :: !Forgets(states[i], steps[i], r)
    ensures Once(states[n], r) && states[n].calls[r] <= 1
  {
    hide Enabled, Apply, Exclusive, Forgets;
    if n > 0 {
      HandledAtMostOnce(publishers, states, steps, n - 1, r);
      hide Once;
      assert states[n] == Apply(states[n - 1], steps[n - 1]) && Exclusive(states[n], r);
      OnceStays(states[n - 1], steps[n - 1], r);
      OnceMeansOnce(states[n], r);
    }
  }

  lemma OnceMeansOnce(s: System, r: Receipt)
    requires Once(s, r)
    ensures s.calls[r] <= 1
  {
  }

  // ---- When the handler can succeed again -------------------------------------------------------

  /** The event is recorded, and no delivery of it is on its way to the handler. */
  ghost predicate Settled(s: System, r: Receipt) {
    && r in s.processed
    && forall d | 0 <= d < |s.deliveries| && s.deliveries[d].payload.Encoded? && ReceiptOf(s.deliveries[d]) == r ::
         s.deliveries[d].stage != Cleared
  }

  lemma SettledStays(s: System, step: Step, r: Receipt)
    requires Settled(s, r) && Enabled(s, step)
    ensures Settled(Apply(s, step), r) && Apply(s, step).calls[r] == s.calls[r]
  {
    hide TrimSpace, Attempted, MarkedPublished, MarkedFailed, Enqueued;
    match step
    case OfPublisher(p, act) =>
      PublisherStepFrame(s, p, act);
      hide PublisherStep;
    case OfDelivery(d, move) => DeliveryStepFrame(s, d, move);
    case _ =>
  }

  lemma {:induction false} SettledForEver(s: System, steps: seq<Step>, after: System, r: Receipt)
    requires Settled(s, r) && Reaches(s, steps, after)
    ensures after.calls[r] == s.calls[r]
    decreases |steps|
  {
    hide Settled, Enabled, Apply;
    if steps != [] {
      SettledStays(s, steps[0], r);
      SettledForEver(Apply(s, steps[0]), steps[1..], after, r);
    }
  }

  lemma Delivers(s: System, steps: seq<Step>, mid: System, consumer: string, payload: Payload)
    returns (more: seq<Step>, after: System)
    requires Reaches(s, steps, mid) && payload in mid.stream
    ensures Reaches(s, more, after)
            && after == mid.(deliveries := mid.deliveries + [Delivered(consumer, payload, Received, false)])
  {
    hide Reaches;
    ReachesSnoc(s, steps, mid, Deliver(consumer, payload));
    more, after := steps + [Deliver(consumer, payload)], Apply(mid, Deliver(consumer, payload));
  }

  lemma Moves(s: System, steps: seq<Step>, mid: System, d: nat, move: DeliveryAct)
    returns (more: seq<Step>, after: System)
    requires Reaches(s, steps, mid) && DeliveryCan(mid, d, move)
    ensures Reaches(s, more, after) && after == DeliveryStep(mid, d, move)
  {
    hide Reaches, DeliveryStep, DeliveryCan;
    ReachesSnoc(s, steps, mid, OfDelivery(d, move));
    more, after := steps + [OfDelivery(d, move)], DeliveryStep(mid, d, move);
  }

  /** A message of the stream that is not recorded can be delivered up to the handler's success. */
  lemma Succeeds(s: System, consumer: string, id: string) returns (steps: seq<Step>, after: System)
    requires Encoded(id) in s.stream && Receipt(consumer, id) !in s.processed
    ensures Reaches(s, steps, after)
    ensures var it := Delivered(consumer, Encoded(id), Succeeded, true);
            after == s.(deliveries := s.deliveries + [it], calls := s.calls + multiset{Receipt(consumer, id)})
  {
    hide Reaches;
    ReachesNone(s);
    var d := |s.deliveries|;
    steps, after := Delivers(s, [], s, consumer, Encoded(id));
    steps, after := Moves(s, steps, after, d, Check(false));
    steps, after := Moves(s, steps, after, d, CallHandler(false));
    assert after.deliveries == s.deliveries + [Delivered(consumer, Encoded(id), Succeeded, true)];
  }

  /** A known event can be brought into the stream. */
  lemma GetsPublished(s: System, id: string) returns (steps: seq<Step>, after: System)
    requires Well(s) && |s.publishers| > 0 && id in s.rows
    ensures Reaches(s, steps, after) && Encoded(id) in after.stream
    ensures after.deliveries == s.deliveries && after.processed == s.processed && after.calls == s.calls
  {
    ReachesNone(s);
    steps, after := [], s;
    if Encoded(id) !in s.stream {
      var r := RecordOf(s.rows, id);
      assert !s.rows[id].published && r.payload == Encoded(id);
      hide Reaches, Well, TrimSpace, Attempted;
      assert OnlyOf([], 0);
      steps, after := OneMoreAct(s, steps, after, 0, Stop);
      steps, after := OneMoreAct(s, steps, after, 0, Claim([r]));
      steps, after := OneMoreAct(s, steps, after, 0, Publish);
    }
  }

  lemma GetsEnqueued(s: System, id: string) returns (steps: seq<Step>, after: System)
    requires Well(s) && TrimSpace(id) == id != ""
    ensures Reaches(s, steps, after) && Well(after) && id in after.rows && after.publishers == s.publishers
    ensures after.deliveries == s.deliveries && after.processed == s.processed && after.calls == s.calls
  {
    hide Reaches, Well, TrimSpace;
    ReachesNone(s);
    var step := Enqueue(id, "", 0);
    StepKeepsWell(s, step);
    ReachesSnoc(s, [], s, step);
    steps, after := [] + [step], Apply(s, step);
  }

  /** The handler can still succeed for an event, some steps from now, exactly unless the event is
      recorded as processed and every delivery that was cleared before has come to an end. */
  lemma SucceedsAgainIff(s: System, r: Receipt)
    requires Well(s) && |s.publishers| > 0 && TrimSpace(r.eventID) == r.eventID != ""
    ensures (exists steps, after :: Reaches(s, steps, after) && after.calls[r] > s.calls[r]) <==> !Settled(s, r)
  {
    hide Reaches, Well, TrimSpace;
    if Settled(s, r) {
      forall steps, after | Reaches(s, steps, after) ensures after.calls[r] == s.calls[r] {
        SettledForEver(s, steps, after, r);
      }
    } else {
      var steps, after := SucceedsAgain(s, r);
      assert Reaches(s, steps, after) && after.calls[r] > s.calls[r];
    }
  }

  lemma SucceedsAgain(s: System, r: Receipt) returns (steps: seq<Step>, after: System)
    requires Well(s) && |s.publishers| > 0 && TrimSpace(r.eventID) == r.eventID != "" && !Settled(s, r)
    ensures Reaches(s, steps, after) && after.calls[r] > s.calls[r]
  {
    hide Reaches, Well, TrimSpace;
    ReachesNone(s);
    if r in s.processed {
      var d :| 0 <= d < |s.deliveries| && s.deliveries[d].payload.Encoded? && ReceiptOf(s.deliveries[d]) == r
          && s.deliveries[d].stage == Cleared;
      steps, after := Moves(s, [], s, d, CallHandler(false));
    } else {
      var first, known := GetsEnqueued(s, r.eventID);
      var second, published := GetsPublished(known, r.eventID);
      var third, done := Succeeds(published, r.consumer, r.eventID);
      ReachesConcat(known, second, published, third, done);
      ReachesConcat(s, first, known, second + third, done);
      steps, after := first + (second + third), done;
    }
  }

  /** Two deliveries that overlap between check and mark: both call the handler, and it succeeds twice. */
  lemma OverlapSucceedsTwice(s: System, consumer: string, id: string) returns (steps: seq<Step>, after: System)
    requires Encoded(id) in s.stream && Receipt(consumer, id) !in s.processed
    ensures Reaches(s, steps, after) && after.calls[Receipt(consumer, id)] == s.calls[Receipt(consumer, id)] + 2
    ensures var it := Delivered(consumer, Encoded(id), Succeeded, true); after.deliveries == s.deliveries + [it, it]
  {
    hide Reaches;
    var first, once := Succeeds(s, consumer, id);
    var second, twice := Succeeds(once, consumer, id);
    ReachesConcat(s, first, once, second, twice);
    steps, after := first + second, twice;
  }

  /** A mark that is lost: the first delivery has ended when the second begins, and the handler succeeds
      twice all the same. */
  lemma LostMarkSucceedsTwice(s: System, consumer: string, id: string) returns (steps: seq<Step>, after: System)
    requires Encoded(id) in s.stream && Receipt(consumer, id) !in s.processed
    ensures Reaches(s, steps, after) && after.calls[Receipt(consumer, id)] == s.calls[Receipt(consumer, id)] + 2
    ensures after.deliveries == s.deliveries + [Delivered(consumer, Encoded(id), Answered(Nak), true),
                                                Delivered(consumer, Encoded(id), Succeeded, true)]
  {
    hide Reaches;
    var first, once := Succeeds(s, consumer, id);
    var lost, mid := Moves(s, first, once, |s.deliveries|, MarkProcessed(true, false));
    var second, twice := Succeeds(mid, consumer, id);
    ReachesConcat(s, lost, mid, second, twice);
    steps, after := lost + second, twice;
  }

  lemma GetsIntoStream(publishers: nat, id: string) returns (steps: seq<Step>, after: System)
    requires publishers > 0 && TrimSpace(id) == id != ""
    ensures Reaches(Start(publishers), steps, after) && Encoded(id) in after.stream
    ensures after.deliveries == [] && after.processed == {} && after.calls == multiset{}
  {
    hide Reaches, TrimSpace, Well;
    StartIsWell(publishers);
    var first, known := GetsEnqueued(Start(publishers), id);
    var second, published := GetsPublished(known, id);
    ReachesConcat(Start(publishers), first, known, second, published);
    steps, after := first + second, published;
  }

  /** Both happen from the very start, for any consumer and any event: with two deliveries that have both
      called the handler and are yet to mark, and with one that has ended without its mark before the
      other began. */
  lemma HandlerCanSucceedTwice(publishers: nat, consumer: string, id: string)
    returns (overlapping: seq<Step>, a: System, lost: seq<Step>, b: System)
    requires publishers > 0 && TrimSpace(id) == id != ""
    ensures var it := Delivered(consumer, Encoded(id), Succeeded, true);
            && Reaches(Start(publishers), overlapping, a) && a.calls[Receipt(consumer, id)] == 2
               && a.deliveries == [it, it]
            && Reaches(Start(publishers), lost, b) && b.calls[Receipt(consumer, id)] == 2
            && b.deliveries == [it.(stage := Answered(Nak)), it]
  {
    hide Reaches, TrimSpace;
    var s := Start(publishers);
    var first, published := GetsIntoStream(publishers, id);
    var second, after := OverlapSucceedsTwice(published, consumer, id);
    ReachesConcat(s, first, published, second, after);
    overlapping, a := first + second, after;
    second, after := LostMarkSucceedsTwice(published, consumer, id);
    ReachesConcat(s, first, published, second, after);
    lost, b := first + second, after;
  }
}
