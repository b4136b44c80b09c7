/**
 * The store and the relay around the one outbox table they share: a commit of the store
 * adds rows, the relay claims, publishes and acks them. Every run of the whole is a run of
 * each part, so what holds of the parts holds of the whole, and an event that was
 * committed reaches the publisher or is left failed with its attempts used up.
 */
module Delivery {
  import opened Common
  import opened Entities
  import opened Outbox
  import Store = StoreModel
  import StoreInvariants
  import Relay = RelayProtocol
  import RelaySafety
  import RelayCounting

  /** `relay.rows` is the outbox table; `store.db.outbox` remembers its rows as they were inserted. */
  datatype System = System(store: Store.State, relay: Relay.State)

  datatype Step = Clock(to: Time) | OfStore(a: Store.Action) | OfRelay(r: Relay.Action)

  type History = Run<Step>

  const INITIAL := System(Store.INITIAL, Relay.INITIAL)

  /** The rows a store commit adds appear in the outbox table, pending; the others stay. */
  function Enqueue(rows: Table, outbox: map<OutboxId, Store.Enqueued>): Table {
    map o | o in rows.Keys + outbox.Keys ::
      if o in rows then rows[o] else FreshRow(outbox[o].message, outbox[o].createdAt)
  }

  predicate Enabled(s: System, a: Step) {
    match a
    case Clock(to) => s.store.now <= to && s.relay.now <= to
    case OfStore(b) => !b.Tick? && Store.Enabled(s.store, b)
    case OfRelay(r) => !r.Tick? && !r.Insert? && Relay.Enabled(s.relay, r)
  }

  function Apply(s: System, a: Step): System
    requires Enabled(s, a)
  {
    match a
    case Clock(to) => System(s.store.(now := to), s.relay.(now := to))
    case OfStore(b) =>
      var store := Store.Apply(s.store, b);
      System(store, s.relay.(rows := Enqueue(s.relay.rows, store.db.outbox)))
    case OfRelay(r) => s.(relay := Relay.Apply(s.relay, r))
  }

  function After(h: History): Option<System> {
    match h
    case Empty => Some(INITIAL)
    case Then(before, a) =>
      var s := After(before);
      if s.Some? && Enabled(s.value, a) then Some(Apply(s.value, a)) else None
  }

  // --------------------------------------------------------------- projections

  function StoreRun(h: History): Store.History {
    match h
    case Empty => Empty
    case Then(before, a) =>
      match a
      case Clock(to) => Then(StoreRun(before), Store.Tick(to))
      case OfStore(b) => Then(StoreRun(before), b)
      case OfRelay(_) => StoreRun(before)
  }

  /** The outbox rows a store action inserts, in order. */
  function Inserted(s: Store.State, a: Store.Action): seq<OutboxId>
    requires Store.Enabled(s, a)
  {
    if Store.Outcome(s, a).reply.Refused? then []
    else match a
      case WriteCommit(_, _, _, _, o) => [o]
      case MutateCommit(_, _, _, o) => [o]
      case PromoteCommit(_, _, _, o) => [o]
      case DedupeCommit(_, _, o, _, co) => [o, co]
      case _ => []
  }

  function InsertAll(h: Relay.History, ids: seq<OutboxId>, outbox: map<OutboxId, Store.Enqueued>): Relay.History
    requires forall o :: o in ids ==> o in outbox
  {
    if ids == [] then h
    else
      var o := ids[|ids| - 1];
      Then(InsertAll(h, ids[..|ids| - 1], outbox), Relay.Insert(o, outbox[o].message, outbox[o].createdAt))
  }

  /** What ids adds to the rows of `before` to get those of `outbox`. */
  ghost predicate Adds(before: map<OutboxId, Store.Enqueued>, ids: seq<OutboxId>, outbox: map<OutboxId, Store.Enqueued>) {
    && Relay.Distinct(ids)
    && (forall o :: o in ids ==> o !in before && o in outbox)
    && (forall o :: o in outbox && o !in ids ==> o in before)
    && (forall o :: o in before ==> o in outbox && outbox[o] == before[o])
  }

  lemma NewInserts(db: Store.Db, input: Store.WriteInput, uuid: MemoryId, at: Time, stamp: Store.Stamp)
    ensures var w := Store.WriteNew(db, input, uuid, at, stamp);
      Adds(db.outbox, if w.reply.Refused? then [] else [stamp.outboxId], w.db.outbox)
  {
  }

  lemma MutationInserts(db: Store.Db, input: Store.MutationInput, read: Record, at: Time, stamp: Store.Stamp)
    ensures var w := Store.WriteMutation(db, input, read, at, stamp);
      Adds(db.outbox, if w.reply.Refused? then [] else [stamp.outboxId], w.db.outbox)
  {
  }

  lemma PromotionInserts(db: Store.Db, input: Store.PromoteInput, read: Record, at: Time, stamp: Store.Stamp)
    ensures var w := Store.WritePromotion(db, input, read, at, stamp);
      Adds(db.outbox, if w.reply.Refused? then [] else [stamp.outboxId], w.db.outbox)
  {
  }

  lemma CollapseInserts(db: Store.Db, t: Store.Tx, stamp: Store.Stamp, collapse: Store.Stamp)
    requires t.CollapseOpen?
    ensures var w := Store.WriteCollapse(db, t.dedupe, t.winnerId, t.read, t.at, t.winner, stamp, collapse);
      Adds(db.outbox, if w.reply.Refused? then [] else [stamp.outboxId, collapse.outboxId], w.db.outbox)
  {
    MutationInserts(db, Store.LoserInput(t.dedupe), t.read, t.at, stamp);
  }

  /** A store action adds exactly the rows it inserts, all of them new, and touches no other. */
  lemma InsertedExactly(s: Store.State, a: Store.Action)
    requires Store.Enabled(s, a)
    ensures Adds(s.db.outbox, Inserted(s, a), Store.Outcome(s, a).db.outbox)
  {
    match a
    case WriteCommit(tx, uuid, at, e, o) => NewInserts(s.db, s.txs[tx].write, uuid, at, Store.Stamp(e, o, s.txs[tx].startedAt));
    case MutateCommit(tx, at, e, o) =>
      MutationInserts(s.db, s.txs[tx].mutate, s.txs[tx].read, at, Store.Stamp(e, o, s.txs[tx].startedAt));
    case PromoteCommit(tx, at, e, o) =>
      PromotionInserts(s.db, s.txs[tx].promote, s.txs[tx].read, at, Store.Stamp(e, o, s.txs[tx].startedAt));
    case DedupeCommit(tx, e, o, ce, co) =>
      CollapseInserts(s.db, s.txs[tx], Store.Stamp(e, o, s.txs[tx].startedAt), Store.Stamp(ce, co, s.txs[tx].startedAt));
    case _ =>
  }

  function RelayRun(h: History): Relay.History {
    match h
    case Empty => Empty
    case Then(before, a) =>
      match a
      case Clock(to) => Then(RelayRun(before), Relay.Tick(to))
      case OfRelay(r) => Then(RelayRun(before), r)
      case OfStore(b) =>
        var s := After(before);
        if s.Some? && Store.Enabled(s.value.store, b) then
          InsertedExactly(s.value.store, b);
          InsertAll(RelayRun(before), Inserted(s.value.store, b), Store.Outcome(s.value.store, b).db.outbox)
        else RelayRun(before)
  }

  /** The table and the record of its insertions hold the same rows, with the same messages. */
  ghost predicate SameMessages(rows: Table, outbox: map<OutboxId, Store.Enqueued>) {
    rows.Keys == outbox.Keys && forall o :: o in rows ==> rows[o].message == outbox[o].message
  }

  lemma {:induction false} InsertAllRuns(h: Relay.History, s: Relay.State, ids: seq<OutboxId>,
                                         outbox: map<OutboxId, Store.Enqueued>)
    requires Relay.After(h) == Some(s)
    requires Relay.Distinct(ids) && forall o :: o in ids ==> o in outbox && o !in s.rows
    ensures var s' := Relay.After(InsertAll(h, ids, outbox));
      && s'.Some? && s'.value == s.(rows := s'.value.rows)
      && s'.value.rows.Keys == s.rows.Keys + (set o | o in ids)
      && forall o :: o in s'.value.rows ==>
           s'.value.rows[o] == if o in s.rows then s.rows[o] else FreshRow(outbox[o].message, outbox[o].createdAt)
  {
    if ids != [] {
      var rest, o := ids[..|ids| - 1], ids[|ids| - 1];
      assert o !in rest && forall p :: p in ids <==> p in rest || p == o;
      InsertAllRuns(h, s, rest, outbox);
    }
  }

  lemma InsertAllIsEnqueue(h: Relay.History, s: Relay.State, before: map<OutboxId, Store.Enqueued>, ids: seq<OutboxId>,
                           outbox: map<OutboxId, Store.Enqueued>)
    requires Relay.After(h) == Some(s) && SameMessages(s.rows, before) && Adds(before, ids, outbox)
    ensures Relay.After(InsertAll(h, ids, outbox)) == Some(s.(rows := Enqueue(s.rows, outbox)))
    ensures SameMessages(Enqueue(s.rows, outbox), outbox)
  {
    InsertAllRuns(h, s, ids, outbox);
    var rows := Relay.After(InsertAll(h, ids, outbox)).value.rows;
    assert outbox.Keys == s.rows.Keys + (set o | o in ids);
    assert rows == Enqueue(s.rows, outbox);
  }

  lemma EnqueueIsInsertAll(h: History, s: System, b: Store.Action)
    requires After(h) == Some(s) && Enabled(s, OfStore(b)) && Relay.After(RelayRun(h)) == Some(s.relay)
    requires SameMessages(s.relay.rows, s.store.db.outbox)
    ensures Relay.After(RelayRun(Then(h, OfStore(b)))) == Some(Apply(s, OfStore(b)).relay)
    ensures SameMessages(Apply(s, OfStore(b)).relay.rows, Apply(s, OfStore(b)).store.db.outbox)
  {
    InsertedExactly(s.store, b);
    InsertAllIsEnqueue(RelayRun(h), s.relay, s.store.db.outbox, Inserted(s.store, b), Store.Outcome(s.store, b).db.outbox);
  }

  /** A step of the relay adds and removes no row and changes no message. */
  lemma RelayKeepsMessages(s: Relay.State, r: Relay.Action, outbox: map<OutboxId, Store.Enqueued>)
    requires RelaySafety.Structure(s) && Relay.Enabled(s, r) && !r.Insert? && SameMessages(s.rows, outbox)
    ensures SameMessages(Relay.Apply(s, r).rows, outbox)
  {
    forall o | o in s.rows
      ensures o in Relay.Apply(s, r).rows && Relay.Apply(s, r).rows[o].message == s.rows[o].message
    {
      RelaySafety.StepOnRow(s, r, o);
    }
    assert Relay.Apply(s, r).rows.Keys <= s.rows.Keys;
  }

  /** Every run of the system is a run of the store and a run of the relay, over the same rows. */
  lemma {:induction false} Projects(h: History, s: System)
    requires After(h) == Some(s)
    ensures Store.After(StoreRun(h)) == Some(s.store)
    ensures Relay.After(RelayRun(h)) == Some(s.relay)
    ensures SameMessages(s.relay.rows, s.store.db.outbox)
  {
    if h.Then? {
      var t := After(h.before).value;
      Projects(h.before, t);
      match h.last
      case Clock(_) =>
      case OfStore(b) => EnqueueIsInsertAll(h.before, t, b);
      case OfRelay(r) =>
        RelaySafety.Reachable(RelayRun(h.before), t.relay);
        RelayKeepsMessages(t.relay, r, t.store.db.outbox);
    }
  }

  // ----------------------------------------------------------------- delivery

  /** The outbox row announces the event: same event id, record, version and type, same snapshot. */
  ghost predicate Announces(s: System, o: OutboxId, k: Store.EventKey) {
    && o in s.relay.rows && k in s.store.db.events
    && var m := s.relay.rows[o].message; var e := s.store.db.events[k];
    && m.eventId == e.eventId && m.memoryId == k.memoryId && m.version == k.version && m.eventType == k.eventType
    && m.record == e.snapshot && m.loser == e.loser && m.tenantId == e.tenantId
  }

  ghost predicate Settled(s: System) {
    forall o :: o in s.relay.rows ==> s.relay.rows[o].status != Pending && s.relay.rows[o].status != Processing
  }

  /** The row was sent after a successful publish, or failed with its attempts used up. */
  ghost predicate Delivered(h: History, s: System, o: OutboxId, maxAttempts: int)
    requires o in s.relay.rows
  {
    var row := s.relay.rows[o];
    (row.status == Sent && RelayCounting.PublishedOnce(RelayRun(h), o))
    || (row.status == Failed && row.attempts >= maxAttempts)
  }

  /** Events and outbox rows announce each other one to one, whatever the relay has done to the rows. */
  lemma OneRowPerEvent(h: History, s: System)
    requires After(h) == Some(s)
    ensures forall k :: k in s.store.db.events ==> exists o :: Announces(s, o, k)
    ensures forall o :: o in s.relay.rows ==> exists k :: Announces(s, o, k)
    ensures forall o, p, k :: Announces(s, o, k) && Announces(s, p, k) ==> o == p
    ensures forall o, j, k :: Announces(s, o, j) && Announces(s, o, k) ==> j == k
  {
    Projects(h, s);
    StoreInvariants.Reachable(StoreRun(h), s.store);
    var db := s.store.db;
    forall k | k in db.events ensures exists o :: Announces(s, o, k) {
      assert StoreInvariants.HasOutboxRow(db, k) && StoreInvariants.EventSound(db, k);
      var o :| StoreInvariants.Carries(db, o, k);
      assert Announces(s, o, k);
    }
    forall o | o in s.relay.rows ensures exists k :: Announces(s, o, k) {
      assert StoreInvariants.HasEvent(db, o);
      var k :| StoreInvariants.Carries(db, o, k);
      assert StoreInvariants.EventSound(db, k);
      assert Announces(s, o, k);
    }
    forall o, p, k | Announces(s, o, k) && Announces(s, p, k) ensures o == p {
      assert StoreInvariants.OneOutboxRow(db, o, p);
    }
  }

  /**
   * End to end. Once no row is pending or processing, every event any call ever committed
   * has exactly one outbox row, and that row was sent after at least one successful publish
   * or failed with at least the shared attempt limit used.
   */
  lemma CommittedEventsAreDelivered(h: History, s: System, k: Store.EventKey, maxAttempts: int)
    requires After(h) == Some(s) && k in s.store.db.events
    requires Settled(s) && RelayCounting.SharedLimit(RelayRun(h), maxAttempts)
    ensures exists o :: Announces(s, o, k) && Delivered(h, s, o, maxAttempts)
    ensures forall o, p :: Announces(s, o, k) && Announces(s, p, k) ==> o == p
  {
    OneRowPerEvent(h, s);
    Projects(h, s);
    RelayCounting.SettledRowsAreExplained(RelayRun(h), s.relay, maxAttempts);
    var o :| Announces(s, o, k);
    assert RelayCounting.SettledSound(s.relay, RelayRun(h), o, maxAttempts);
  }

  // ------------------------------------------------------------ what is delivered

  /** The message a publish step hands over. */
  function Handed(s: Relay.State, r: Relay.Action): OutboxMessage
    requires r.Publish? && Relay.Enabled(s, r)
  {
    s.workers[r.w].phase.batch[s.workers[r.w].phase.pos].message
  }

  /** Every message handed to a publisher is the stored one of its row, and announces a committed event. */
  lemma PublishesCommittedMessage(h: History, s: System, r: Relay.Action) returns (k: Store.EventKey)
    requires After(h) == Some(s) && r.Publish? && Enabled(s, OfRelay(r))
    ensures Announces(s, r.id, k) && Handed(s.relay, r) == s.relay.rows[r.id].message
  {
    Projects(h, s);
    RelaySafety.Reachable(RelayRun(h), s.relay);
    assert RelaySafety.PhaseSound(s.relay, r.w, s.relay.workers[r.w].phase);
    OneRowPerEvent(h, s);
    k :| Announces(s, r.id, k);
  }

  /** Store steps publish nothing. */
  lemma {:induction false} InsertsPublishNothing(h: Relay.History, ids: seq<OutboxId>, outbox: map<OutboxId, Store.Enqueued>, o: OutboxId)
    requires forall p :: p in ids ==> p in outbox
    ensures RelayCounting.PublishedOnce(InsertAll(h, ids, outbox), o) <==> RelayCounting.PublishedOnce(h, o)
  {
    if ids != [] {
      InsertsPublishNothing(h, ids[..|ids| - 1], outbox, o);
    }
  }

  lemma MessageStays(h: History, s: System, a: Step, o: OutboxId)
    requires After(h) == Some(s) && Enabled(s, a) && o in s.relay.rows
    ensures o in Apply(s, a).relay.rows && Apply(s, a).relay.rows[o].message == s.relay.rows[o].message
  {
    if a.OfRelay? {
      Projects(h, s);
      RelaySafety.Reachable(RelayRun(h), s.relay);
      RelaySafety.StepOnRow(s.relay, a.r, o);
    }
  }

  /** The last successful publish of a row: the history it ends, and the state it was made in. */
  ghost predicate PublishedBy(h: History, publish: History, o: OutboxId, message: OutboxMessage) {
    && Continues(h, publish) && publish.Then? && After(publish).Some?
    && publish.last.OfRelay? && publish.last.r.Publish? && publish.last.r.id == o && publish.last.r.ok
    && Handed(After(publish.before).value.relay, publish.last.r) == message
  }

  /** A row that counts as published was published with the message it still has. */
  lemma {:induction false} WhatWasPublished(h: History, s: System, o: OutboxId) returns (publish: History)
    requires After(h) == Some(s) && o in s.relay.rows && RelayCounting.PublishedOnce(RelayRun(h), o)
    ensures PublishedBy(h, publish, o, s.relay.rows[o].message)
  {
    var t := After(h.before).value;
    match h.last
    case OfRelay(r) =>
      if r.Publish? && r.id == o && r.ok {
        publish := h;
        var k := PublishesCommittedMessage(h.before, t, r);
      } else {
        PublishedRowExists(h.before, t, o);
        publish := WhatWasPublished(h.before, t, o);
        MessageStays(h.before, t, h.last, o);
      }
    case OfStore(b) =>
      InsertedExactly(t.store, b);
      InsertsPublishNothing(RelayRun(h.before), Inserted(t.store, b), Store.Outcome(t.store, b).db.outbox, o);
      PublishedRowExists(h.before, t, o);
      publish := WhatWasPublished(h.before, t, o);
      MessageStays(h.before, t, h.last, o);
    case Clock(_) =>
      publish := WhatWasPublished(h.before, t, o);
  }

  lemma {:induction false} PublishedRowExists(h: History, s: System, o: OutboxId)
    requires After(h) == Some(s) && RelayCounting.PublishedOnce(RelayRun(h), o)
    ensures o in s.relay.rows
  {
    var t := After(h.before).value;
    match h.last
    case OfRelay(r) =>
      if r.Publish? && r.id == o {
        var k := PublishesCommittedMessage(h.before, t, r);
      } else {
        PublishedRowExists(h.before, t, o);
      }
      MessageStays(h.before, t, h.last, o);
    case OfStore(b) =>
      InsertedExactly(t.store, b);
      InsertsPublishNothing(RelayRun(h.before), Inserted(t.store, b), Store.Outcome(t.store, b).db.outbox, o);
      PublishedRowExists(h.before, t, o);
      MessageStays(h.before, t, h.last, o);
    case Clock(_) =>
      PublishedRowExists(h.before, t, o);
  }

  /** Some publish of the row succeeded with the message it holds, or its attempts were used up. */
  ghost predicate MessageDelivered(h: History, s: System, o: OutboxId, maxAttempts: int)
    requires o in s.relay.rows
  {
    (s.relay.rows[o].status == Sent && exists publish :: PublishedBy(h, publish, o, s.relay.rows[o].message))
    || (s.relay.rows[o].status == Failed && s.relay.rows[o].attempts >= maxAttempts)
  }

  /**
   * End to end, with what was delivered: once nothing is open, a committed event's row is
   * failed with its attempts used up, or some publish succeeded with exactly that event's
   * message.
   */
  lemma CommittedMessagesAreDelivered(h: History, s: System, k: Store.EventKey, maxAttempts: int)
    requires After(h) == Some(s) && k in s.store.db.events
    requires Settled(s) && RelayCounting.SharedLimit(RelayRun(h), maxAttempts)
    ensures exists o :: Announces(s, o, k) && MessageDelivered(h, s, o, maxAttempts)
  {
    CommittedEventsAreDelivered(h, s, k, maxAttempts);
    var o :| Announces(s, o, k) && Delivered(h, s, o, maxAttempts);
    if s.relay.rows[o].status == Sent {
      var publish := WhatWasPublished(h, s, o);
    }
  }
}
