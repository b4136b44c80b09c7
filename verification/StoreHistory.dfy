/** What holds over whole runs of the record store. */
module StoreHistory {
  import opened Common
  import opened Entities
  import opened StoreModel
  import opened StoreInvariants

  // ------------------------------------------------------ log, table and outbox

  /**
   * The log agrees with the table. A record at version v has exactly one event that is not a
   * collapse for each version 1..v, no event beyond v, and its newest event shows the row on
   * every column but the two that MarkAccess writes.
   */
  lemma LogAgreesWithTable(h: History, s: State, m: MemoryId)
    requires After(h) == Some(s) && m in s.db.records
    ensures forall v :: 1 <= v <= s.db.records[m].version ==> HasStep(s.db, m, v)
    ensures forall v: int, t: EventType, u: EventType ::
      (t != MemoryDedupeCollapsed && u != MemoryDedupeCollapsed
       && EventKey(m, v, t) in s.db.events && EventKey(m, v, u) in s.db.events) ==> t == u
    ensures forall k :: k in s.db.events && k.memoryId == m ==> 1 <= k.version <= s.db.records[m].version
    ensures forall k :: k in s.db.events && k.memoryId == m && k.version == s.db.records[m].version ==>
      s.db.events[k].snapshot == s.db.records[m].(hitCount := s.db.events[k].snapshot.hitCount,
                                                 lastAccessAt := s.db.events[k].snapshot.lastAccessAt)
  {
    Reachable(h, s);
    assert RecordSound(s.db, m);
    forall v: int, t: EventType, u: EventType | t != MemoryDedupeCollapsed && u != MemoryDedupeCollapsed
      && EventKey(m, v, t) in s.db.events && EventKey(m, v, u) in s.db.events
      ensures t == u
    {
      assert PairSound(s.db, EventKey(m, v, t), EventKey(m, v, u));
    }
    forall k | k in s.db.events && k.memoryId == m
      ensures 1 <= k.version <= s.db.records[m].version
      ensures k.version == s.db.records[m].version ==> SameVersioned(s.db.events[k].snapshot, s.db.records[m])
    {
      assert EventSound(s.db, k);
    }
  }

  /** The ORDER BY version DESC, created_at DESC rule of the session listing. */
  ghost predicate IsLatest(db: Db, k: EventKey) {
    && k in db.events
    && forall j :: j in db.events && j.memoryId == k.memoryId ==>
         j.version < k.version
         || (j.version == k.version && db.events[j].createdAt <= db.events[k].createdAt)
  }

  /** The latest event of a record, by that rule, belongs to the record's current version and shows its row. */
  lemma LatestEventIsCurrent(h: History, s: State, k: EventKey)
    requires After(h) == Some(s) && IsLatest(s.db, k)
    ensures k.memoryId in s.db.records && k.version == s.db.records[k.memoryId].version
    ensures SameVersioned(s.db.events[k].snapshot, s.db.records[k.memoryId])
  {
    Reachable(h, s);
    assert EventSound(s.db, k);
    var m, v := k.memoryId, s.db.records[k.memoryId].version;
    assert RecordSound(s.db, m);
    assert HasStep(s.db, m, v);
    var t: EventType :| t != MemoryDedupeCollapsed && EventKey(m, v, t) in s.db.events;
    assert EventKey(m, v, t).version <= k.version;
  }

  /** Every event has exactly one outbox row: with its event id, type and version, and its record. */
  lemma EveryEventHasOneOutboxRow(h: History, s: State, k: EventKey)
    requires After(h) == Some(s) && k in s.db.events
    ensures exists o :: Carries(s.db, o, k)
    ensures forall o, p ::
      (o in s.db.outbox && p in s.db.outbox
       && s.db.outbox[o].message.eventId == s.db.events[k].eventId
       && s.db.outbox[p].message.eventId == s.db.events[k].eventId) ==> o == p
    ensures forall o :: o in s.db.outbox && s.db.outbox[o].message.eventId == s.db.events[k].eventId ==>
      var message := s.db.outbox[o].message;
      && message.memoryId == k.memoryId && message.version == k.version && message.eventType == k.eventType
      && message.tenantId == s.db.events[k].tenantId && message.record == s.db.events[k].snapshot
      && message.loser == s.db.events[k].loser
  {
    Reachable(h, s);
    assert HasOutboxRow(s.db, k) && EventSound(s.db, k);
    var o :| Carries(s.db, o, k);
    forall p | p in s.db.outbox && s.db.outbox[p].message.eventId == s.db.events[k].eventId ensures p == o {
      assert OneOutboxRow(s.db, o, p);
    }
  }

  // -------------------------------------------------------------- what only grows

  /** A row keeps its identity, its version never falls, and nothing versioned changes without a new version. */
  ghost predicate RecordGrows(db: Db, db': Db, m: MemoryId) {
    m in db.records ==>
      && m in db'.records
      && db'.records[m].tenantId == db.records[m].tenantId
      && db'.records[m].origin == db.records[m].origin
      && db'.records[m].version >= db.records[m].version
      && (db'.records[m].version == db.records[m].version ==> SameVersioned(db'.records[m], db.records[m]))
      && (db.records[m].deleted ==> db'.records[m].deleted)
  }

  /** Log, outbox, recorded responses and registered winners are never rewritten. */
  ghost predicate TablesGrow(db: Db, db': Db) {
    && (forall k :: k in db.events ==> k in db'.events && db'.events[k] == db.events[k])
    && (forall o :: o in db.outbox ==> o in db'.outbox && db'.outbox[o] == db.outbox[o])
    && (forall k :: k in db.idempotency ==> k in db'.idempotency && db'.idempotency[k] == db.idempotency[k])
    && (forall k :: k in db.winners ==> k in db'.winners && db'.winners[k] == db.winners[k])
  }

  ghost predicate Grows(db: Db, db': Db) {
    TablesGrow(db, db') && forall m :: RecordGrows(db, db', m)
  }

  lemma GrowsTransitive(a: Db, b: Db, c: Db)
    requires Grows(a, b) && Grows(b, c)
    ensures Grows(a, c)
  {
    forall m ensures RecordGrows(a, c, m) {
      assert RecordGrows(a, b, m) && RecordGrows(b, c, m);
    }
  }

  lemma MutationGrows(db: Db, input: MutationInput, read: Record, now: Time, stamp: Stamp)
    requires LogSound(db) && ReadFor(db, read, input.tenantId, input.memoryId, input.expectedVersion)
    ensures Grows(db, WriteMutation(db, input, read, now, stamp).db)
  {
    if !WriteMutation(db, input, read, now, stamp).reply.Refused? {
      MutationIsAStep(db, input, read, now, stamp);
    }
  }

  lemma PromotionGrows(db: Db, input: PromoteInput, read: Record, now: Time, stamp: Stamp)
    requires LogSound(db) && ReadFor(db, read, input.tenantId, input.memoryId, input.expectedVersion)
    ensures Grows(db, WritePromotion(db, input, read, now, stamp).db)
  {
    if !WritePromotion(db, input, read, now, stamp).reply.Refused? {
      PromotionIsAStep(db, input, read, now, stamp);
    }
  }

  lemma EmitGrows(db: Db, r: Record, t: EventType, stamp: Stamp, loser: Option<MemoryId>)
    requires MayEmit(db, r, t, stamp)
    ensures Grows(db, Emit(db, r, t, stamp, None, loser))
  {
  }

  lemma InsertGrows(db: Db, input: WriteInput, uuid: MemoryId, now: Time, stamp: Stamp)
    ensures Grows(db, WriteNew(db, input, uuid, now, stamp).db)
  {
  }

  lemma CollapseGrows(db: Db, t: Tx, stamp: Stamp, collapse: Stamp)
    requires LogSound(db) && t.CollapseOpen? && TxSound(db, t)
    ensures Grows(db, WriteCollapse(db, t.dedupe, t.winnerId, t.read, t.at, t.winner, stamp, collapse).db)
  {
    MutationGrows(db, LoserInput(t.dedupe), t.read, t.at, stamp);
    var mid := WriteMutation(db, LoserInput(t.dedupe), t.read, t.at, stamp).db;
    if MayEmit(mid, t.winner, MemoryDedupeCollapsed, collapse) {
      EmitGrows(mid, t.winner, MemoryDedupeCollapsed, collapse, Some(t.dedupe.candidateId));
      GrowsTransitive(db, mid, Emit(mid, t.winner, MemoryDedupeCollapsed, collapse, None, Some(t.dedupe.candidateId)));
    }
  }

  lemma TouchGrows(db: Db, tenantId: TenantId, ids: set<MemoryId>, at: Time)
    ensures Grows(db, Touch(db, tenantId, ids, at))
  {
  }

  lemma ClaimGrows(db: Db, input: DedupeInput)
    ensures Grows(db, ClaimWinner(db, input).db)
  {
  }

  /** The actions that can change a table. */
  predicate Writes(a: Action) {
    a.WriteCommit? || a.MutateCommit? || a.PromoteCommit? || a.DedupeCommit? || a.DedupeClaim? || a.MarkAccess?
  }

  /** Reads, replays and refusals leave every table as it was. */
  lemma NothingChanges(s: State, a: Action)
    requires Enabled(s, a)
    requires !Writes(a) || Outcome(s, a).reply.Refused? || Outcome(s, a).reply == StillOpen
    ensures Outcome(s, a).db == s.db
  {
  }

  lemma StepGrows(s: State, a: Action)
    requires StateSound(s) && Enabled(s, a)
    ensures Grows(s.db, Outcome(s, a).db)
  {
    match a
    case WriteCommit(tx, uuid, at, e, o) =>
      InsertGrows(s.db, s.txs[tx].write, uuid, at, Stamp(e, o, s.txs[tx].startedAt));
    case MutateCommit(tx, at, e, o) =>
      assert TxSound(s.db, s.txs[tx]);
      MutationGrows(s.db, s.txs[tx].mutate, s.txs[tx].read, at, Stamp(e, o, s.txs[tx].startedAt));
    case PromoteCommit(tx, at, e, o) =>
      assert TxSound(s.db, s.txs[tx]);
      PromotionGrows(s.db, s.txs[tx].promote, s.txs[tx].read, at, Stamp(e, o, s.txs[tx].startedAt));
    case DedupeCommit(tx, e, o, ce, co) =>
      assert TxSound(s.db, s.txs[tx]);
      CollapseGrows(s.db, s.txs[tx], Stamp(e, o, s.txs[tx].startedAt), Stamp(ce, co, s.txs[tx].startedAt));
    case MarkAccess(tenantId, ids, at) => TouchGrows(s.db, tenantId, (set m | m in ids), at);
    case DedupeClaim(_, input) => ClaimGrows(s.db, input);
    case _ => NothingChanges(s, a);
  }

  lemma {:induction false} RunGrows(earlier: History, later: History)
    requires Continues(later, earlier) && After(later).Some? && After(earlier).Some?
    ensures Grows(After(earlier).value.db, After(later).value.db)
  {
    if later != earlier {
      var s := After(later.before).value;
      RunGrows(earlier, later.before);
      Reachable(later.before, s);
      StepGrows(s, later.last);
      GrowsTransitive(After(earlier).value.db, s.db, After(later).value.db);
    }
  }

  /** A tombstone is permanent: GetRecord hides the record in every later state, to every tenant. */
  lemma TombstonesArePermanent(earlier: History, later: History, m: MemoryId, tenantId: TenantId)
    requires Continues(later, earlier) && After(later).Some? && After(earlier).Some?
    requires m in After(earlier).value.db.records && After(earlier).value.db.records[m].deleted
    ensures m in After(later).value.db.records && After(later).value.db.records[m].deleted
    ensures GetRecord(After(later).value.db, tenantId, m) == None
  {
    RunGrows(earlier, later);
    assert RecordGrows(After(earlier).value.db, After(later).value.db, m);
  }

  // -------------------------------------------------- one writer for each version

  /** The history ends with a mutation, promotion or dedupe tombstone that moved record m on from version v. */
  ghost predicate MovedOn(h: History, m: MemoryId, v: int) {
    && h.Then? && After(h).Some?
    && var s := After(h.before).value; var a := h.last;
    && !Outcome(s, a).reply.Refused?
    && ((a.MutateCommit? && s.txs[a.tx].mutate.memoryId == m && s.txs[a.tx].mutate.expectedVersion == v)
        || (a.PromoteCommit? && s.txs[a.tx].promote.memoryId == m && s.txs[a.tx].promote.expectedVersion == v)
        || (a.DedupeCommit? && s.txs[a.tx].dedupe.candidateId == m && s.txs[a.tx].dedupe.candidateVersion == v))
  }

  lemma MovingOnSpendsVersion(h: History, m: MemoryId, v: int)
    requires MovedOn(h, m, v)
    ensures m in After(h.before).value.db.records && After(h.before).value.db.records[m].version == v
    ensures m in After(h).value.db.records && After(h).value.db.records[m].version == v + 1
  {
    var s, a := After(h.before).value, h.last;
    Reachable(h.before, s);
    assert TxSound(s.db, s.txs[a.tx]);
  }

  lemma VersionNeverFalls(earlier: History, later: History, m: MemoryId)
    requires Continues(later, earlier) && After(later).Some? && After(earlier).Some?
    requires m in After(earlier).value.db.records
    ensures m in After(later).value.db.records
    ensures After(later).value.db.records[m].version >= After(earlier).value.db.records[m].version
  {
    RunGrows(earlier, later);
    assert RecordGrows(After(earlier).value.db, After(later).value.db, m);
  }

  /** At most one mutation, promotion or tombstone succeeds for a record and an expected version. */
  lemma OneSuccessPerVersion(h1: History, h2: History, m: MemoryId, v: int)
    requires MovedOn(h1, m, v) && MovedOn(h2, m, v) && Continues(h2, h1)
    ensures h1 == h2
  {
    MovingOnSpendsVersion(h1, m, v);
    MovingOnSpendsVersion(h2, m, v);
    if h1 != h2 {
      VersionNeverFalls(h1, h2.before, m);
    }
  }
}
