/** The tables of the record store, the transactions open on them, and the statements they run. */
module StoreDatabase {
  import opened Common
  import opened Entities
  import opened StoreModel

  /** How a statement ends: so many rows affected, or a constraint it ran into. */
  datatype Execution = Rows(affected: nat) | Violation

  /** The transaction whose step the action is, if any. */
  predicate StepOf(a: Action, tx: TxId) {
    !a.Tick? && !a.MarkAccess? && a.tx == tx
  }

  /** Only others acted since. */
  ghost predicate Interlude(later: History, earlier: History, tx: TxId) {
    later == earlier || (later.Then? && !StepOf(later.last, tx) && Interlude(later.before, earlier, tx))
  }

  lemma {:induction false} InterludeContinues(later: History, earlier: History, tx: TxId)
    requires Interlude(later, earlier, tx)
    ensures Continues(later, earlier)
  {
    if later != earlier {
      InterludeContinues(later.before, earlier, tx);
    }
  }

  class Tables {
    var now: Time
    var records: map<MemoryId, Record>
    var events: map<EventKey, Event>
    var outbox: map<OutboxId, Enqueued>
    var idempotency: map<Scoped, IdempotencyEntry>
    var winners: map<Scoped, MemoryId>
    var txs: map<TxId, Tx>
    ghost var history: History

    function Contents(): Db
      reads this
    {
      Db(records, events, outbox, idempotency, winners)
    }

    function Snapshot(): State
      reads this
    {
      State(now, Contents(), txs)
    }

    /** The tables hold what the history of all actions led to. */
    ghost predicate Valid()
      reads this
    {
      After(history) == Some(Snapshot())
    }

    constructor ()
      ensures Valid() && history == Empty
    {
      now, records, events, outbox, idempotency, winners, txs := 0, map[], map[], map[], map[], map[], map[];
      history := Empty;
    }

    method Restore(db: Db)
      modifies this
      ensures Contents() == db && now == old(now) && txs == old(txs) && history == old(history)
    {
      records, events, outbox, idempotency, winners := db.records, db.events, db.outbox, db.idempotency, db.winners;
    }

    method Perform(a: Action)
      requires Valid() && Enabled(Snapshot(), a)
      modifies this
      ensures Valid() && history == Then(old(history), a) && Snapshot() == Apply(old(Snapshot()), a)
    {
      var s := Apply(Snapshot(), a);
      Restore(s.db);
      now, txs := s.now, s.txs;
      history := Then(history, a);
    }

    /** The rest of the world takes its turn; steps it cannot take are skipped. */
    method Yield(tx: TxId, script: seq<Action>)
      requires Valid()
      modifies this
      ensures Valid() && Continues(history, old(history))
      ensures tx in txs <==> tx in old(txs)
      ensures tx in txs ==> txs[tx] == old(txs)[tx]
    {
      for i := 0 to |script|
        invariant Valid() && Interlude(history, old(history), tx)
        invariant tx in txs <==> tx in old(txs)
        invariant tx in txs ==> txs[tx] == old(txs)[tx]
      {
        if Enabled(Snapshot(), script[i]) && !StepOf(script[i], tx) {
          Perform(script[i]);
        }
      }
      InterludeContinues(history, old(history), tx);
    }

    /** The statements just run were this action: the transaction moves on, or ends. */
    method Record(a: Action, before: State)
      requires !a.Tick? && After(history) == Some(before) && Enabled(before, a)
      requires Contents() == Outcome(before, a).db && now == before.now && txs == before.txs
      modifies this
      ensures Valid() && history == Then(old(history), a) && Contents() == old(Contents()) && now == old(now)
      ensures txs == OpenAfter(before, a)
    {
      txs := OpenAfter(before, a);
      history := Then(history, a);
    }

    // ------------------------------------------------------------- statements

    /** SELECT of one record; it locks nothing. */
    method LoadRecord(tenantId: TenantId, memoryId: MemoryId) returns (row: Option<Record>)
      ensures row == Load(Contents(), tenantId, memoryId)
    {
      if memoryId in records && records[memoryId].tenantId == tenantId {
        row := Some(records[memoryId]);
      } else {
        row := None;
      }
    }

    /** The mutation UPDATE, guarded by tenant, id and version. */
    method UpdateMutated(tenantId: TenantId, memoryId: MemoryId, version: int, to: Record) returns (e: Execution)
      modifies this`records
      ensures var row := Load(old(Contents()), tenantId, memoryId);
        e == (if row == None || row.value.version != version then Rows(0)
              else if !ImportanceAllowed(to) then Violation else Rows(1))
      ensures records == if e == Rows(1) then
          old(records)[memoryId := SetMutationColumns(old(records)[memoryId], to)] else old(records)
    {
      var row := LoadRecord(tenantId, memoryId);
      if row == None || row.value.version != version {
        return Rows(0);
      }
      if to.importance < 0.0 || to.importance > 1.0 {
        return Violation;
      }
      records := records[memoryId := row.value.(
        category := to.category, content := to.content, tags := to.tags, importance := to.importance,
        pinned := to.pinned, disabled := to.disabled, deleted := to.deleted, version := to.version,
        updatedAt := to.updatedAt, deletedAt := to.deletedAt)];
      e := Rows(1);
    }

    /** The promotion UPDATE, under the same guard. */
    method UpdatePromoted(tenantId: TenantId, memoryId: MemoryId, version: int, to: Record) returns (e: Execution)
      modifies this`records
      ensures var row := Load(old(Contents()), tenantId, memoryId);
        e == if row == None || row.value.version != version then Rows(0) else Rows(1)
      ensures records == if e == Rows(1) then
          old(records)[memoryId := SetPromotionColumns(old(records)[memoryId], to)] else old(records)
    {
      var row := LoadRecord(tenantId, memoryId);
      if row == None || row.value.version != version {
        return Rows(0);
      }
      records := records[memoryId := row.value.(
        kind := to.kind, consolidatedFrom := to.consolidatedFrom, version := to.version, updatedAt := to.updatedAt)];
      e := Rows(1);
    }

    method InsertRecord(r: Record) returns (e: Execution)
      modifies this`records
      ensures e == if r.memoryId in old(records) || !ImportanceAllowed(r) then Violation else Rows(1)
      ensures records == if e == Rows(1) then old(records)[r.memoryId := r] else old(records)
    {
      if r.memoryId in records || r.importance < 0.0 || r.importance > 1.0 {
        return Violation;
      }
      records := records[r.memoryId := r];
      e := Rows(1);
    }

    /** The event insert followed by the outbox insert; a violation of either aborts the transaction. */
    method InsertEventAndOutbox(r: Record, eventType: EventType, stamp: Stamp, key: Option<string>, loser: Option<MemoryId>)
      returns (e: Execution)
      modifies this`events, this`outbox
      ensures e == if MayEmit(old(Contents()), r, eventType, stamp) then Rows(1) else Violation
      ensures e == Rows(1) ==> Contents() == Emit(old(Contents()), r, eventType, stamp, key, loser)
    {
      if EventKey(r.memoryId, r.version, eventType) in events || (exists k :: k in events && events[k].eventId == stamp.eventId) {
        return Violation;
      }
      events := events[EventKey(r.memoryId, r.version, eventType) :=
        Event(stamp.eventId, r.tenantId, key, stamp.startedAt, r, loser)];
      if stamp.outboxId in outbox {
        return Violation;
      }
      outbox := outbox[stamp.outboxId :=
        Enqueued(OutboxMessage(r.version, r.tenantId, r.memoryId, eventType, stamp.eventId, r, loser), stamp.startedAt)];
      e := Rows(1);
    }

    /** INSERT ... ON CONFLICT DO NOTHING RETURNING: a row comes back only when the slot was free. */
    method InsertWinner(scope: Scoped, memoryId: MemoryId) returns (claimed: Option<MemoryId>)
      modifies this`winners
      ensures claimed == if scope in old(winners) then None else Some(memoryId)
      ensures winners == if claimed.Some? then old(winners)[scope := memoryId] else old(winners)
    {
      claimed := None;
      if scope !in winners {
        winners := winners[scope := memoryId];
        claimed := Some(memoryId);
      }
    }

    /** SELECT of a recorded response. */
    method LoadIdempotency(scope: Scoped) returns (entry: Option<IdempotencyEntry>)
      ensures entry == if scope in idempotency then Some(idempotency[scope]) else None
    {
      entry := None;
      if scope in idempotency {
        entry := Some(idempotency[scope]);
      }
    }

    /** The bulk UPDATE of MarkAccess. */
    method UpdateAccessed(tenantId: TenantId, ids: seq<MemoryId>, at: Time)
      modifies this`records
      ensures Contents() == Touch(old(Contents()), tenantId, (set m | m in ids), at)
    {
      records := map m | m in records ::
        if records[m].tenantId == tenantId && m in ids
        then records[m].(lastAccessAt := Some(at), hitCount := records[m].hitCount + 1)
        else records[m];
    }

    method InsertIdempotency(scope: Scoped, requestHash: string, response: WriteResult) returns (e: Execution)
      modifies this`idempotency
      ensures e == if scope in old(idempotency) then Violation else Rows(1)
      ensures idempotency == if e == Rows(1) then
          old(idempotency)[scope := IdempotencyEntry(requestHash, response)] else old(idempotency)
    {
      if scope in idempotency {
        return Violation;
      }
      idempotency := idempotency[scope := IdempotencyEntry(requestHash, response)];
      e := Rows(1);
    }
  }
}
