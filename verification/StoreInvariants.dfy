/** What every step of the record store keeps: the log agrees with the table, the outbox with the log. */
module StoreInvariants {
  import opened Common
  import opened Entities
  import opened StoreModel

  // ----------------------------------------------------------------- the log

  /** A record without the two columns MarkAccess writes, which no version covers. */
  function Versioned(r: Record): Record {
    r.(hitCount := 0, lastAccessAt := None)
  }

  predicate SameVersioned(r: Record, q: Record) {
    Versioned(r) == Versioned(q)
  }

  predicate IsStep(k: EventKey) {
    k.eventType != MemoryDedupeCollapsed
  }

  ghost predicate HasStep(db: Db, m: MemoryId, v: int) {
    exists t: EventType :: t != MemoryDedupeCollapsed && EventKey(m, v, t) in db.events
  }

  ghost predicate RecordSound(db: Db, m: MemoryId) {
    m in db.records ==>
      && db.records[m].memoryId == m && db.records[m].version >= 1 && ImportanceAllowed(db.records[m])
      && forall v :: 1 <= v <= db.records[m].version ==> HasStep(db, m, v)
  }

  /** An event belongs to a version its record has reached; at the newest version it shows the row. */
  ghost predicate EventSound(db: Db, k: EventKey) {
    k in db.events ==>
      var e := db.events[k];
      && e.snapshot.memoryId == k.memoryId && e.snapshot.version == k.version
      && k.memoryId in db.records && 1 <= k.version <= db.records[k.memoryId].version
      && e.snapshot.tenantId == e.tenantId == db.records[k.memoryId].tenantId
      && (k.version == db.records[k.memoryId].version ==> SameVersioned(e.snapshot, db.records[k.memoryId]))
  }

  /** One version, one content: events of the same version differ at most in being collapses of it. */
  ghost predicate PairSound(db: Db, j: EventKey, k: EventKey) {
    j in db.events && k in db.events && j.memoryId == k.memoryId && j.version == k.version ==>
      && SameVersioned(db.events[j].snapshot, db.events[k].snapshot)
      && (IsStep(j) && IsStep(k) ==> j == k)
  }

  ghost predicate LogSound(db: Db) {
    && (forall m :: RecordSound(db, m))
    && (forall k :: EventSound(db, k))
    && (forall j, k :: PairSound(db, j, k))
  }

  /** A record as some committed version of its row showed it. */
  ghost predicate Known(db: Db, r: Record) {
    && r.memoryId in db.records && r.tenantId == db.records[r.memoryId].tenantId
    && 1 <= r.version <= db.records[r.memoryId].version
    && forall k :: k in db.events && k.memoryId == r.memoryId && k.version == r.version ==>
         SameVersioned(db.events[k].snapshot, r)
  }

  lemma RowIsKnown(db: Db, m: MemoryId)
    requires LogSound(db) && m in db.records
    ensures Known(db, db.records[m])
  {
    assert RecordSound(db, m);
    forall k | k in db.events && k.memoryId == m && k.version == db.records[m].version
      ensures SameVersioned(db.events[k].snapshot, db.records[m])
    {
      assert EventSound(db, k);
    }
  }

  /** A read that is still the newest version is the row, up to the access columns. */
  lemma KnownNewestIsRow(db: Db, r: Record)
    requires LogSound(db) && Known(db, r) && r.version == db.records[r.memoryId].version
    ensures SameVersioned(r, db.records[r.memoryId])
  {
    assert RecordSound(db, r.memoryId);
    assert HasStep(db, r.memoryId, r.version);
    var t: EventType :| t != MemoryDedupeCollapsed && EventKey(r.memoryId, r.version, t) in db.events;
    assert EventSound(db, EventKey(r.memoryId, r.version, t));
  }

  // -------------------------------------------------------------- the outbox

  ghost predicate Carries(db: Db, o: OutboxId, k: EventKey) {
    && k in db.events && o in db.outbox
    && db.outbox[o] == Enqueued(MessageOf(db.events[k].snapshot, k.eventType, db.events[k].eventId, db.events[k].loser),
                                db.events[k].createdAt)
  }

  ghost predicate HasOutboxRow(db: Db, k: EventKey) {
    k in db.events ==> exists o :: Carries(db, o, k)
  }

  ghost predicate HasEvent(db: Db, o: OutboxId) {
    o in db.outbox ==> exists k :: Carries(db, o, k)
  }

  ghost predicate OneOutboxRow(db: Db, o: OutboxId, p: OutboxId) {
    o in db.outbox && p in db.outbox && db.outbox[o].message.eventId == db.outbox[p].message.eventId ==> o == p
  }

  ghost predicate OneEvent(db: Db, j: EventKey, k: EventKey) {
    j in db.events && k in db.events && db.events[j].eventId == db.events[k].eventId ==> j == k
  }

  /** Events and outbox rows correspond one to one, by event id and with the same contents. */
  ghost predicate OutboxSound(db: Db) {
    && (forall k :: HasOutboxRow(db, k))
    && (forall o :: HasEvent(db, o))
    && (forall o, p :: OneOutboxRow(db, o, p))
    && (forall j, k :: OneEvent(db, j, k))
  }

  lemma EmitKeepsOutbox(db: Db, db0: Db, r: Record, eventType: EventType, stamp: Stamp, key: Option<string>, loser: Option<MemoryId>)
    requires OutboxSound(db) && MayEmit(db, r, eventType, stamp)
    requires db0.events == db.events && db0.outbox == db.outbox
    ensures OutboxSound(Emit(db0, r, eventType, stamp, key, loser))
  {
    var db', k0 := Emit(db0, r, eventType, stamp, key, loser), EventKey(r.memoryId, r.version, eventType);
    assert Carries(db', stamp.outboxId, k0);
    forall k ensures HasOutboxRow(db', k) {
      assert HasOutboxRow(db, k);
      if k in db.events {
        var o :| Carries(db, o, k);
        assert Carries(db', o, k);
      }
    }
    forall o ensures HasEvent(db', o) && (o in db.outbox ==> db.outbox[o].message.eventId != stamp.eventId) {
      assert HasEvent(db, o);
      if o in db.outbox {
        var k :| Carries(db, o, k);
        assert Carries(db', o, k);
      }
    }
    forall o, p ensures OneOutboxRow(db', o, p) {
      assert OneOutboxRow(db, o, p);
    }
    forall j, k ensures OneEvent(db', j, k) {
      assert OneEvent(db, j, k);
    }
  }

  // ---------------------------------------------------- the three ways to write

  /** The tables after a versioned write: the new row, and its event with its outbox row. */
  function Stepped(db: Db, row: Record, shown: Record, t: EventType, stamp: Stamp, key: Option<string>): Db {
    Emit(db.(records := db.records[row.memoryId := row]), shown, t, stamp, key, None)
  }

  ghost predicate MayStep(db: Db, row: Record, shown: Record, t: EventType, stamp: Stamp) {
    && t != MemoryDedupeCollapsed
    && MayEmit(db, shown, t, stamp)
    && SameVersioned(shown, row) && ImportanceAllowed(row)
    && if row.memoryId in db.records then
         row.version == db.records[row.memoryId].version + 1 && row.tenantId == db.records[row.memoryId].tenantId
       else row.version == 1
  }

  lemma StepKeepsRecords(db: Db, row: Record, shown: Record, t: EventType, stamp: Stamp, key: Option<string>, m: MemoryId)
    requires LogSound(db) && MayStep(db, row, shown, t, stamp)
    ensures RecordSound(Stepped(db, row, shown, t, stamp, key), m)
  {
    var db' := Stepped(db, row, shown, t, stamp, key);
    if m in db'.records {
      assert RecordSound(db, m);
      forall v | 1 <= v <= db'.records[m].version ensures HasStep(db', m, v) {
        if m == row.memoryId && v == row.version {
          assert EventKey(m, v, t) in db'.events;
        } else {
          assert HasStep(db, m, v);
          var t': EventType :| t' != MemoryDedupeCollapsed && EventKey(m, v, t') in db.events;
          assert EventKey(m, v, t') in db'.events;
        }
      }
    }
  }

  lemma StepKeepsEvents(db: Db, row: Record, shown: Record, t: EventType, stamp: Stamp, key: Option<string>)
    requires LogSound(db) && MayStep(db, row, shown, t, stamp)
    ensures forall k :: EventSound(Stepped(db, row, shown, t, stamp, key), k)
    ensures forall j, k :: PairSound(Stepped(db, row, shown, t, stamp, key), j, k)
  {
    var db', k0 := Stepped(db, row, shown, t, stamp, key), EventKey(shown.memoryId, shown.version, t);
    forall k | k in db.events ensures k.memoryId == row.memoryId ==> k.version < row.version {
      assert EventSound(db, k);
    }
    assert shown.memoryId == row.memoryId && shown.version == row.version && shown.tenantId == row.tenantId;
    assert RecordSound(db, row.memoryId);
    forall k ensures EventSound(db', k) {
      assert EventSound(db, k);
    }
    forall j, k ensures PairSound(db', j, k) {
      assert PairSound(db, j, k);
    }
  }

  lemma StepKeepsKnown(db: Db, row: Record, shown: Record, t: EventType, stamp: Stamp, key: Option<string>, r: Record)
    requires LogSound(db) && MayStep(db, row, shown, t, stamp) && Known(db, r)
    ensures Known(Stepped(db, row, shown, t, stamp, key), r)
  {
  }

  lemma CollapseKeepsLog(db: Db, winner: Record, stamp: Stamp, loser: Option<MemoryId>)
    requires LogSound(db) && Known(db, winner) && MayEmit(db, winner, MemoryDedupeCollapsed, stamp)
    ensures LogSound(Emit(db, winner, MemoryDedupeCollapsed, stamp, None, loser))
  {
    var db' := Emit(db, winner, MemoryDedupeCollapsed, stamp, None, loser);
    var k0 := EventKey(winner.memoryId, winner.version, MemoryDedupeCollapsed);
    forall m ensures RecordSound(db', m) {
      assert RecordSound(db, m);
      if m in db'.records {
        forall v | 1 <= v <= db'.records[m].version ensures HasStep(db', m, v) {
          assert HasStep(db, m, v);
          var t: EventType :| t != MemoryDedupeCollapsed && EventKey(m, v, t) in db.events;
          assert EventKey(m, v, t) in db'.events;
        }
      }
    }
    if winner.version == db.records[winner.memoryId].version {
      KnownNewestIsRow(db, winner);
    }
    forall k ensures EventSound(db', k) {
      assert EventSound(db, k);
    }
    forall j, k ensures PairSound(db', j, k) {
      assert PairSound(db, j, k);
    }
  }

  lemma CollapseKeepsKnown(db: Db, winner: Record, stamp: Stamp, loser: Option<MemoryId>, r: Record)
    requires LogSound(db) && Known(db, winner) && Known(db, r)
    requires MayEmit(db, winner, MemoryDedupeCollapsed, stamp)
    ensures Known(Emit(db, winner, MemoryDedupeCollapsed, stamp, None, loser), r)
  {
    if r.memoryId == winner.memoryId && r.version == winner.version {
      assert RecordSound(db, r.memoryId);
      assert HasStep(db, r.memoryId, r.version);
      var t: EventType :| t != MemoryDedupeCollapsed && EventKey(r.memoryId, r.version, t) in db.events;
      assert SameVersioned(db.events[EventKey(r.memoryId, r.version, t)].snapshot, r);
    }
  }

  lemma TouchKeepsLog(db: Db, tenantId: TenantId, ids: set<MemoryId>, at: Time)
    requires LogSound(db)
    ensures LogSound(Touch(db, tenantId, ids, at))
    ensures forall r: Record :: Known(db, r) ==> Known(Touch(db, tenantId, ids, at), r)
  {
    var db' := Touch(db, tenantId, ids, at);
    forall m ensures RecordSound(db', m) {
      assert RecordSound(db, m);
      if m in db'.records {
        forall v | 1 <= v <= db'.records[m].version ensures HasStep(db', m, v) {
          assert HasStep(db, m, v);
          var t: EventType :| t != MemoryDedupeCollapsed && EventKey(m, v, t) in db.events;
          assert EventKey(m, v, t) in db'.events;
        }
      }
    }
    forall k ensures EventSound(db', k) {
      assert EventSound(db, k);
    }
    forall j, k ensures PairSound(db', j, k) {
      assert PairSound(db, j, k);
    }
  }

  // ------------------------------------------------------------ transactions

  ghost predicate DbSound(db: Db) {
    LogSound(db) && OutboxSound(db)
  }

  /** A read made for a request: the requested record, at the version the request expects. */
  ghost predicate ReadFor(db: Db, r: Record, tenantId: TenantId, memoryId: MemoryId, version: int) {
    Known(db, r) && r.tenantId == tenantId && r.memoryId == memoryId && r.version == version
  }

  ghost predicate TxSound(db: Db, t: Tx) {
    match t
    case WriteOpen(input, _) => input.tenantId != "" && input.key != "" && input.requestHash != ""
    case MutateOpen(input, _, r) =>
      input.tenantId != "" && input.memoryId != "" && input.expectedVersion > 0
      && ReadFor(db, r, input.tenantId, input.memoryId, input.expectedVersion)
    case PromoteLookedUp(input, _) => input.tenantId != "" && input.memoryId != ""
    case PromoteOpen(input, _, r) =>
      input.tenantId != "" && input.memoryId != "" && input.expectedVersion > 0
      && ReadFor(db, r, input.tenantId, input.memoryId, input.expectedVersion)
    case Collided(input, _, w) =>
      Scoped(input.tenantId, input.dedupeKey) in db.winners && db.winners[Scoped(input.tenantId, input.dedupeKey)] == w
    case LoserRead(input, _, w, r) =>
      && Scoped(input.tenantId, input.dedupeKey) in db.winners && db.winners[Scoped(input.tenantId, input.dedupeKey)] == w
      && ReadFor(db, r, input.tenantId, input.candidateId, input.candidateVersion)
    case CollapseOpen(input, _, w, r, at, winner) =>
      && Scoped(input.tenantId, input.dedupeKey) in db.winners && db.winners[Scoped(input.tenantId, input.dedupeKey)] == w
      && ReadFor(db, r, input.tenantId, input.candidateId, input.candidateVersion)
      && winner.memoryId == w && winner.tenantId == input.tenantId
      && if w == input.candidateId then SameVersioned(winner, Mutate(Delete, r, at)) else Known(db, winner)
  }

  ghost predicate StateSound(s: State) {
    DbSound(s.db) && forall tx :: tx in s.txs ==> TxSound(s.db, s.txs[tx])
  }

  // ---------------------------------------------- each write, in those terms

  /** The row an accepted mutation leaves. */
  function MutatedRow(db: Db, input: MutationInput, read: Record, now: Time): Record
    requires input.memoryId in db.records
  {
    SetMutationColumns(db.records[input.memoryId], Mutate(input.mutation, read, now))
  }

  lemma MutationIsAStep(db: Db, input: MutationInput, read: Record, now: Time, stamp: Stamp)
    requires LogSound(db) && ReadFor(db, read, input.tenantId, input.memoryId, input.expectedVersion)
    requires !WriteMutation(db, input, read, now, stamp).reply.Refused?
    ensures var row, to := MutatedRow(db, input, read, now), Mutate(input.mutation, read, now);
      && SameVersioned(read, db.records[input.memoryId])
      && MayStep(db, row, to, MutationEvent(input.mutation), stamp)
      && WriteMutation(db, input, read, now, stamp)
         == Result(Stepped(db, row, to, MutationEvent(input.mutation), stamp, None), Mutated(to))
  {
    KnownNewestIsRow(db, read);
  }

  lemma PromotionIsAStep(db: Db, input: PromoteInput, read: Record, now: Time, stamp: Stamp)
    requires LogSound(db) && ReadFor(db, read, input.tenantId, input.memoryId, input.expectedVersion)
    requires !WritePromotion(db, input, read, now, stamp).reply.Refused?
    ensures var to := PromoteRecord(read, input.sourceEventId, now);
      var row := SetPromotionColumns(db.records[input.memoryId], to);
      var stepped := Stepped(db, row, to, MemoryPromoted, stamp, None);
      var db' := WritePromotion(db, input, read, now, stamp).db;
      && SameVersioned(read, db.records[input.memoryId])
      && MayStep(db, row, to, MemoryPromoted, stamp)
      && db' == stepped.(idempotency := db'.idempotency)
  {
    KnownNewestIsRow(db, read);
    assert RecordSound(db, input.memoryId);
  }

  lemma InsertIsAStep(db: Db, input: WriteInput, uuid: MemoryId, now: Time, stamp: Stamp)
    requires LogSound(db) && !WriteNew(db, input, uuid, now, stamp).reply.Refused?
    ensures var r := NewRecord(input, uuid, now);
      var db' := WriteNew(db, input, uuid, now, stamp).db;
      && MayStep(db, r, r, MemoryCreated, stamp)
      && db' == Stepped(db, r, r, MemoryCreated, stamp, Some(input.key)).(idempotency := db'.idempotency)
  {
  }

  /** The outbox invariant is about the events and the outbox only. */
  lemma OutboxOnly(db: Db, db': Db)
    requires db'.events == db.events && db'.outbox == db.outbox && OutboxSound(db)
    ensures OutboxSound(db')
  {
    forall k ensures HasOutboxRow(db', k) {
      assert HasOutboxRow(db, k);
      if k in db.events {
        var o :| Carries(db, o, k);
        assert Carries(db', o, k);
      }
    }
    forall o ensures HasEvent(db', o) {
      assert HasEvent(db, o);
      if o in db.outbox {
        var k :| Carries(db, o, k);
        assert Carries(db', o, k);
      }
    }
    forall o, p ensures OneOutboxRow(db', o, p) {
      assert OneOutboxRow(db, o, p);
    }
    forall j, k ensures OneEvent(db', j, k) {
      assert OneEvent(db, j, k);
    }
  }

  /** The log says nothing about the idempotency table or the dedupe index. */
  lemma OtherTablesAreFree(db: Db, db': Db)
    requires db'.records == db.records && db'.events == db.events && db'.outbox == db.outbox
    requires DbSound(db)
    ensures DbSound(db')
    ensures forall r: Record :: Known(db, r) ==> Known(db', r)
  {
    forall m ensures RecordSound(db', m) {
      assert RecordSound(db, m);
      if m in db'.records {
        forall v | 1 <= v <= db'.records[m].version ensures HasStep(db', m, v) {
          assert HasStep(db, m, v);
        }
      }
    }
    forall k ensures EventSound(db', k) {
      assert EventSound(db, k);
    }
    forall j, k ensures PairSound(db', j, k) {
      assert PairSound(db, j, k);
    }
    OutboxOnly(db, db');
  }

  lemma StepKeepsDb(db: Db, row: Record, shown: Record, t: EventType, stamp: Stamp, key: Option<string>)
    requires DbSound(db) && MayStep(db, row, shown, t, stamp)
    ensures DbSound(Stepped(db, row, shown, t, stamp, key))
  {
    forall m ensures RecordSound(Stepped(db, row, shown, t, stamp, key), m) {
      StepKeepsRecords(db, row, shown, t, stamp, key, m);
    }
    StepKeepsEvents(db, row, shown, t, stamp, key);
    EmitKeepsOutbox(db, db.(records := db.records[row.memoryId := row]), shown, t, stamp, key, None);
  }

  // ------------------------------------------------------------- preservation

  /** What open transactions rely on: reads stay known, winners stay registered. */
  ghost predicate Preserves(db: Db, db': Db) {
    && (forall r: Record :: Known(db, r) ==> Known(db', r))
    && (forall w :: w in db.winners ==> w in db'.winners && db'.winners[w] == db.winners[w])
  }

  lemma MutationKeeps(db: Db, input: MutationInput, read: Record, now: Time, stamp: Stamp)
    requires DbSound(db) && ReadFor(db, read, input.tenantId, input.memoryId, input.expectedVersion)
    ensures var db' := WriteMutation(db, input, read, now, stamp).db; DbSound(db') && Preserves(db, db')
  {
    if !WriteMutation(db, input, read, now, stamp).reply.Refused? {
      MutationIsAStep(db, input, read, now, stamp);
      var row, to, t := MutatedRow(db, input, read, now), Mutate(input.mutation, read, now), MutationEvent(input.mutation);
      StepKeepsDb(db, row, to, t, stamp, None);
      forall r: Record | Known(db, r) ensures Known(Stepped(db, row, to, t, stamp, None), r) {
        StepKeepsKnown(db, row, to, t, stamp, None, r);
      }
    }
  }

  lemma PromotionKeeps(db: Db, input: PromoteInput, read: Record, now: Time, stamp: Stamp)
    requires DbSound(db) && ReadFor(db, read, input.tenantId, input.memoryId, input.expectedVersion)
    ensures var db' := WritePromotion(db, input, read, now, stamp).db; DbSound(db') && Preserves(db, db')
  {
    if !WritePromotion(db, input, read, now, stamp).reply.Refused? {
      PromotionIsAStep(db, input, read, now, stamp);
      var to := PromoteRecord(read, input.sourceEventId, now);
      var row := SetPromotionColumns(db.records[input.memoryId], to);
      var stepped := Stepped(db, row, to, MemoryPromoted, stamp, None);
      StepKeepsDb(db, row, to, MemoryPromoted, stamp, None);
      forall r: Record | Known(db, r) ensures Known(stepped, r) {
        StepKeepsKnown(db, row, to, MemoryPromoted, stamp, None, r);
      }
      OtherTablesAreFree(stepped, WritePromotion(db, input, read, now, stamp).db);
    }
  }

  lemma InsertKeeps(db: Db, input: WriteInput, uuid: MemoryId, now: Time, stamp: Stamp)
    requires DbSound(db)
    ensures var db' := WriteNew(db, input, uuid, now, stamp).db; DbSound(db') && Preserves(db, db')
  {
    if !WriteNew(db, input, uuid, now, stamp).reply.Refused? {
      InsertIsAStep(db, input, uuid, now, stamp);
      var n := NewRecord(input, uuid, now);
      var stepped := Stepped(db, n, n, MemoryCreated, stamp, Some(input.key));
      StepKeepsDb(db, n, n, MemoryCreated, stamp, Some(input.key));
      forall r: Record | Known(db, r) ensures Known(stepped, r) {
        StepKeepsKnown(db, n, n, MemoryCreated, stamp, Some(input.key), r);
      }
      OtherTablesAreFree(stepped, WriteNew(db, input, uuid, now, stamp).db);
    }
  }

  /** After the loser's tombstone, the winner snapshot shows a committed version of the winner. */
  lemma WinnerIsKnown(db: Db, t: Tx, stamp: Stamp)
    requires DbSound(db) && t.CollapseOpen? && TxSound(db, t)
    requires !WriteMutation(db, LoserInput(t.dedupe), t.read, t.at, stamp).reply.Refused?
    ensures var db' := WriteMutation(db, LoserInput(t.dedupe), t.read, t.at, stamp).db;
      DbSound(db') && Preserves(db, db') && Known(db', t.winner)
  {
    var input := LoserInput(t.dedupe);
    MutationKeeps(db, input, t.read, t.at, stamp);
    MutationIsAStep(db, input, t.read, t.at, stamp);
    var db' := WriteMutation(db, input, t.read, t.at, stamp).db;
    if t.winnerId == t.dedupe.candidateId {
      RowIsKnown(db', t.winnerId);
      assert SameVersioned(db'.records[t.winnerId], t.winner);
    }
  }

  lemma CollapseKeeps(db: Db, t: Tx, stamp: Stamp, collapse: Stamp)
    requires DbSound(db) && t.CollapseOpen? && TxSound(db, t)
    ensures var db' := WriteCollapse(db, t.dedupe, t.winnerId, t.read, t.at, t.winner, stamp, collapse).db;
      DbSound(db') && Preserves(db, db')
  {
    var result := WriteCollapse(db, t.dedupe, t.winnerId, t.read, t.at, t.winner, stamp, collapse);
    if !result.reply.Refused? {
      var mid := WriteMutation(db, LoserInput(t.dedupe), t.read, t.at, stamp).db;
      WinnerIsKnown(db, t, stamp);
      CollapseKeepsLog(mid, t.winner, collapse, Some(t.dedupe.candidateId));
      EmitKeepsOutbox(mid, mid, t.winner, MemoryDedupeCollapsed, collapse, None, Some(t.dedupe.candidateId));
      forall r: Record | Known(db, r) ensures Known(result.db, r) {
        CollapseKeepsKnown(mid, t.winner, collapse, Some(t.dedupe.candidateId), r);
      }
    }
  }

  lemma TouchKeeps(db: Db, tenantId: TenantId, ids: set<MemoryId>, at: Time)
    requires DbSound(db)
    ensures DbSound(Touch(db, tenantId, ids, at)) && Preserves(db, Touch(db, tenantId, ids, at))
  {
    TouchKeepsLog(db, tenantId, ids, at);
    OutboxOnly(db, Touch(db, tenantId, ids, at));
  }

  lemma OutcomeKeeps(s: State, a: Action)
    requires StateSound(s) && Enabled(s, a)
    ensures DbSound(Outcome(s, a).db) && Preserves(s.db, Outcome(s, a).db)
  {
    match a
    case WriteCommit(tx, uuid, at, e, o) =>
      InsertKeeps(s.db, s.txs[tx].write, uuid, at, Stamp(e, o, s.txs[tx].startedAt));
    case MutateCommit(tx, at, e, o) =>
      assert TxSound(s.db, s.txs[tx]);
      MutationKeeps(s.db, s.txs[tx].mutate, s.txs[tx].read, at, Stamp(e, o, s.txs[tx].startedAt));
    case PromoteCommit(tx, at, e, o) =>
      assert TxSound(s.db, s.txs[tx]);
      PromotionKeeps(s.db, s.txs[tx].promote, s.txs[tx].read, at, Stamp(e, o, s.txs[tx].startedAt));
    case DedupeCommit(tx, e, o, ce, co) =>
      assert TxSound(s.db, s.txs[tx]);
      CollapseKeeps(s.db, s.txs[tx], Stamp(e, o, s.txs[tx].startedAt), Stamp(ce, co, s.txs[tx].startedAt));
    case MarkAccess(tenantId, ids, at) => TouchKeeps(s.db, tenantId, (set m | m in ids), at);
    case DedupeClaim(_, input) => OtherTablesAreFree(s.db, Outcome(s, a).db);
    case _ =>
  }

  lemma LoadIsKnown(db: Db, tenantId: TenantId, memoryId: MemoryId)
    requires LogSound(db) && Load(db, tenantId, memoryId).Some?
    ensures var r := Load(db, tenantId, memoryId).value; ReadFor(db, r, tenantId, memoryId, r.version)
  {
    RowIsKnown(db, memoryId);
    assert RecordSound(db, memoryId);
  }

  lemma WinnerReadSound(s: State, t: Tx, at: Time)
    requires StateSound(s) && t.LoserRead? && TxSound(s.db, t) && ReadWinner(s, t, at).Continue?
    ensures TxSound(s.db, ReadWinner(s, t, at).tx)
  {
    LoadIsKnown(s.db, t.dedupe.tenantId, t.winnerId);
    if t.winnerId == t.dedupe.candidateId {
      KnownNewestIsRow(s.db, t.read);
    }
  }

  /** A transaction opened or advanced by a statement has read what it claims to have read. */
  lemma NewTxSound(s: State, a: Action, tx: TxId)
    requires StateSound(s) && Enabled(s, a) && tx in OpenAfter(s, a)
    requires tx !in s.txs || OpenAfter(s, a)[tx] != s.txs[tx]
    ensures TxSound(Outcome(s, a).db, OpenAfter(s, a)[tx])
  {
    match a
    case MutateRead(_, input) => LoadIsKnown(s.db, input.tenantId, input.memoryId);
    case PromoteRead(_) => LoadIsKnown(s.db, s.txs[tx].promote.tenantId, s.txs[tx].promote.memoryId);
    case DedupeReadLoser(_) =>
      assert TxSound(s.db, s.txs[tx]);
      LoadIsKnown(s.db, s.txs[tx].dedupe.tenantId, s.txs[tx].dedupe.candidateId);
    case DedupeReadWinner(_, at) =>
      assert TxSound(s.db, s.txs[tx]);
      WinnerReadSound(s, s.txs[tx], at);
    case _ =>
  }

  lemma OldTxSound(db: Db, db': Db, t: Tx)
    requires TxSound(db, t) && Preserves(db, db')
    ensures TxSound(db', t)
  {
  }

  lemma StepKeepsSound(s: State, a: Action)
    requires StateSound(s) && Enabled(s, a)
    ensures StateSound(Apply(s, a))
  {
    var s' := Apply(s, a);
    OutcomeKeeps(s, a);
    forall tx | tx in s'.txs ensures TxSound(s'.db, s'.txs[tx]) {
      if tx in s.txs && s'.txs[tx] == s.txs[tx] {
        OldTxSound(s.db, s'.db, s.txs[tx]);
      } else {
        NewTxSound(s, a, tx);
      }
    }
  }

  lemma {:induction false} Reachable(h: History, s: State)
    requires After(h) == Some(s)
    ensures StateSound(s)
  {
    if h.Then? {
      Reachable(h.before, After(h.before).value);
      StepKeepsSound(After(h.before).value, h.last);
    }
  }
}
