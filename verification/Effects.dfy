/**
 * What a successful call does, column by column, to the row as it is at the commit. The
 * calls work on copies read earlier without a lock; in terms of the row nothing is lost.
 */
module Effects {
  import opened Common
  import opened Entities
  import opened StoreModel
  import opened StoreInvariants

  /** All rows but that of m are as they were. */
  ghost predicate OnlyRow(db: Db, db': Db, m: MemoryId) {
    && db'.records.Keys == db.records.Keys + {m}
    && forall n :: n in db.records && n != m ==> db'.records[n] == db.records[n]
  }

  /** One event was added, of this type, for the row's new version, and it shows the row. */
  ghost predicate LogsRow(db: Db, db': Db, m: MemoryId, t: EventType) {
    && m in db'.records
    && var k := EventKey(m, db'.records[m].version, t);
    && k !in db.events && db'.events.Keys == db.events.Keys + {k}
    && SameVersioned(db'.events[k].snapshot, db'.records[m])
    && forall j :: j in db.events ==> db'.events[j] == db.events[j]
  }

  /** The columns no mutation and no promotion writes, the access counters among them. */
  ghost predicate KeepsIdentity(r: Record, r': Record) {
    && r'.memoryId == r.memoryId && r'.tenantId == r.tenantId && r'.origin == r.origin
    && r'.hitCount == r.hitCount && r'.lastAccessAt == r.lastAccessAt
  }

  ghost predicate KeepsKind(r: Record, r': Record) {
    r'.kind == r.kind && r'.consolidatedFrom == r.consolidatedFrom
  }

  ghost predicate KeepsContents(r: Record, r': Record) {
    r'.content == r.content && r'.category == r.category && r'.tags == r.tags && r'.importance == r.importance
  }

  ghost predicate KeepsFlags(r: Record, r': Record) {
    r'.pinned == r.pinned && r'.disabled == r.disabled && r'.deleted == r.deleted && r'.deletedAt == r.deletedAt
  }

  /** A patch replaces a column exactly when the request gives a value that is not empty or zero. */
  ghost predicate Patched(m: Mutation, r: Record, r': Record)
    requires m.Patch?
  {
    && r'.content == (if m.content == "" then r.content else m.content)
    && r'.category == (if m.category == "" then r.category else m.category)
    && r'.tags == (if m.tags == None then r.tags else m.tags.value)
    && r'.importance == (if m.importance == 0.0 then r.importance else m.importance)
  }

  ghost predicate Requested(m: Mutation, r: Record, r': Record, at: Time, t: EventType) {
    match m
    case Patch(_, _, _, _) => Patched(m, r, r') && KeepsFlags(r, r') && t == MemoryUpdated
    case Delete =>
      KeepsContents(r, r') && r'.deleted && r'.deletedAt == Some(at) && r'.pinned == r.pinned && r'.disabled == r.disabled
      && t == MemoryDeleted
    case Pin(on) =>
      KeepsContents(r, r') && KeepsFlags(r, r'.(pinned := r.pinned)) && r'.pinned == on
      && (t == MemoryPinned <==> on) && (t == MemoryUnpinned <==> !on)
    case Disable(on) =>
      KeepsContents(r, r') && KeepsFlags(r, r'.(disabled := r.disabled)) && r'.disabled == on
      && (t == MemoryDisabled <==> on) && (t == MemoryEnabled <==> !on)
  }

  lemma MutationChangesRow(db: Db, input: MutationInput, read: Record, at: Time, stamp: Stamp)
    requires LogSound(db) && ReadFor(db, read, input.tenantId, input.memoryId, input.expectedVersion)
    requires !WriteMutation(db, input, read, at, stamp).reply.Refused?
    ensures var db', m := WriteMutation(db, input, read, at, stamp).db, input.memoryId;
      && OnlyRow(db, db', m) && LogsRow(db, db', m, MutationEvent(input.mutation))
      && KeepsIdentity(db.records[m], db'.records[m]) && KeepsKind(db.records[m], db'.records[m])
      && Requested(input.mutation, db.records[m], db'.records[m], at, MutationEvent(input.mutation))
  {
    MutationIsAStep(db, input, read, at, stamp);
  }

  /**
   * A mutation that succeeds moves the record from the expected version to the next, changes
   * exactly the requested columns of the row as it is then, whatever was accessed or
   * committed since the read, and logs one event of the right type showing the row.
   */
  lemma MutationEffect(h: History, s: State, a: Action)
    requires After(h) == Some(s) && a.MutateCommit? && Enabled(s, a) && !Outcome(s, a).reply.Refused?
    ensures var input, db, db' := s.txs[a.tx].mutate, s.db, Outcome(s, a).db; var m := input.memoryId;
      && m in db.records && db.records[m].tenantId == input.tenantId && db.records[m].version == input.expectedVersion
      && OnlyRow(db, db', m) && db'.records[m].version == input.expectedVersion + 1 && db'.records[m].updatedAt == a.at
      && KeepsIdentity(db.records[m], db'.records[m]) && KeepsKind(db.records[m], db'.records[m])
      && (exists t :: LogsRow(db, db', m, t) && Requested(input.mutation, db.records[m], db'.records[m], a.at, t))
      && db'.idempotency == db.idempotency && db'.winners == db.winners
    ensures Outcome(s, a).reply.Mutated?
      && SameVersioned(Outcome(s, a).reply.record, Outcome(s, a).db.records[s.txs[a.tx].mutate.memoryId])
  {
    Reachable(h, s);
    var t := s.txs[a.tx];
    assert TxSound(s.db, t);
    MutationChangesRow(s.db, t.mutate, t.read, a.at, Stamp(a.eventId, a.outboxId, t.startedAt));
    MutationIsAStep(s.db, t.mutate, t.read, a.at, Stamp(a.eventId, a.outboxId, t.startedAt));
  }

  lemma PromotionChangesRow(db: Db, input: PromoteInput, read: Record, at: Time, stamp: Stamp)
    requires LogSound(db) && ReadFor(db, read, input.tenantId, input.memoryId, input.expectedVersion)
    requires !WritePromotion(db, input, read, at, stamp).reply.Refused?
    ensures var db', m := WritePromotion(db, input, read, at, stamp).db, input.memoryId;
      && OnlyRow(db, db', m) && LogsRow(db, db', m, MemoryPromoted)
      && KeepsIdentity(db.records[m], db'.records[m])
      && KeepsContents(db.records[m], db'.records[m]) && KeepsFlags(db.records[m], db'.records[m])
  {
    PromotionIsAStep(db, input, read, at, stamp);
  }

  /**
   * A promotion that succeeds makes the row episodic with the given source event, whatever
   * kind it had, changes no content and no flag, and logs one promotion event showing the row.
   * The answer says it was created and shows the row, and is what a key is recorded with.
   */
  lemma PromotionEffect(h: History, s: State, a: Action)
    requires After(h) == Some(s) && a.PromoteCommit? && Enabled(s, a) && !Outcome(s, a).reply.Refused?
    ensures var input, db, db' := s.txs[a.tx].promote, s.db, Outcome(s, a).db; var m := input.memoryId;
      && m in db.records && db.records[m].tenantId == input.tenantId && db.records[m].version == input.expectedVersion
      && OnlyRow(db, db', m) && LogsRow(db, db', m, MemoryPromoted)
      && db'.records[m].version == input.expectedVersion + 1 && db'.records[m].updatedAt == a.at
      && db'.records[m].kind == Episodic && db'.records[m].consolidatedFrom == input.sourceEventId
      && KeepsIdentity(db.records[m], db'.records[m])
      && KeepsContents(db.records[m], db'.records[m]) && KeepsFlags(db.records[m], db'.records[m])
      && db'.winners == db.winners
      && db'.idempotency.Keys == db.idempotency.Keys + (if input.key == "" then {} else {Scoped(input.tenantId, input.key)})
    ensures var input, reply := s.txs[a.tx].promote, Outcome(s, a).reply; var m := input.memoryId;
      && reply.Written? && reply.result.created && reply.result.memoryId == m && reply.result.version == input.expectedVersion + 1
      && SameVersioned(reply.result.record, Outcome(s, a).db.records[m])
      && (input.key != "" ==> Outcome(s, a).db.idempotency[Scoped(input.tenantId, input.key)].response == reply.result)
  {
    Reachable(h, s);
    var t := s.txs[a.tx];
    assert TxSound(s.db, t);
    PromotionChangesRow(s.db, t.promote, t.read, a.at, Stamp(a.eventId, a.outboxId, t.startedAt));
    PromotionIsAStep(s.db, t.promote, t.read, a.at, Stamp(a.eventId, a.outboxId, t.startedAt));
  }

  /**
   * A write that succeeds adds the requested record under the tenant at version 1, with an id
   * and a creation time of its own when the request brings none, and one creation event.
   */
  lemma WriteEffect(h: History, s: State, a: Action)
    requires After(h) == Some(s) && a.WriteCommit? && Enabled(s, a) && !Outcome(s, a).reply.Refused?
    ensures var input, db, db' := s.txs[a.tx].write, s.db, Outcome(s, a).db;
      var m := if input.record.memoryId != "" then input.record.memoryId else a.uuid;
      && m !in db.records && OnlyRow(db, db', m) && LogsRow(db, db', m, MemoryCreated)
      && var r := db'.records[m];
      && r.tenantId == input.tenantId && r.version == 1 && r.updatedAt == a.at && r.memoryId == m
      && r.origin == input.record.origin.(createdAt := r.origin.createdAt)
      && r.origin.createdAt == (if input.record.origin.createdAt == ZERO_TIME then a.at else input.record.origin.createdAt)
      && KeepsKind(input.record, r) && KeepsContents(input.record, r) && KeepsFlags(input.record, r)
      && r.hitCount == input.record.hitCount && r.lastAccessAt == input.record.lastAccessAt
      && Outcome(s, a).reply == Written(WriteResult(m, 1, true, r))
      && db'.events[EventKey(m, 1, MemoryCreated)].idempotencyKey == Some(input.key)
      && db'.idempotency
         == db.idempotency[Scoped(input.tenantId, input.key) := IdempotencyEntry(input.requestHash, WriteResult(m, 1, true, r))]
  {
    Reachable(h, s);
    InsertIsAStep(s.db, s.txs[a.tx].write, a.uuid, a.at, Stamp(a.eventId, a.outboxId, s.txs[a.tx].startedAt));
  }
}
