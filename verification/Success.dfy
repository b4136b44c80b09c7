/**
 * When a call run alone succeeds, and with which error it is refused otherwise. On sound
 * tables and with ids never used before, the outcome can be read off the request and the
 * tables before the call.
 */
module Success {
  import opened Common
  import opened Entities
  import opened StoreModel
  import opened StoreInvariants
  import opened Atomicity

  /** The event id and the outbox id have never been used. */
  ghost predicate Unused(db: Db, eventId: EventId, outboxId: OutboxId) {
    outboxId !in db.outbox && forall k :: k in db.events ==> db.events[k].eventId != eventId
  }

  /** The tenant has a record with this id. */
  predicate Has(db: Db, tenantId: TenantId, memoryId: MemoryId) {
    memoryId in db.records && db.records[memoryId].tenantId == tenantId
  }

  /** The tenant has it at this version. */
  predicate HasVersion(db: Db, tenantId: TenantId, memoryId: MemoryId, version: int) {
    Has(db, tenantId, memoryId) && db.records[memoryId].version == version
  }

  /** The next version of a record has no event yet. */
  lemma NextVersionIsFree(db: Db, memoryId: MemoryId, eventType: EventType)
    requires DbSound(db) && memoryId in db.records
    ensures EventKey(memoryId, db.records[memoryId].version + 1, eventType) !in db.events
  {
    assert EventSound(db, EventKey(memoryId, db.records[memoryId].version + 1, eventType));
  }

  // ---------------------------------------------------------------- mutations

  /** A patch asks for an importance from 0 to 1, where 0 leaves it as it is. */
  predicate InRange(m: Mutation) {
    m.Patch? ==> 0.0 <= m.importance <= 1.0
  }

  /** Each answer of a mutation, by what there is before it. */
  ghost predicate MutationAnswer(db: Db, input: MutationInput, reply: Reply) {
    var named := input.tenantId != "" && input.memoryId != "";
    var current := named && input.expectedVersion > 0
      && HasVersion(db, input.tenantId, input.memoryId, input.expectedVersion);
    && (reply.Mutated? <==> current && InRange(input.mutation))
    && (reply == Refused(ConstraintViolation) <==> current && !InRange(input.mutation))
    && (reply == Refused(NotFound) <==>
          !named || (input.expectedVersion > 0 && !Has(db, input.tenantId, input.memoryId)))
    && (reply == Refused(VersionConflict) <==>
          named && (input.expectedVersion <= 0
                    || (Has(db, input.tenantId, input.memoryId)
                        && !HasVersion(db, input.tenantId, input.memoryId, input.expectedVersion))))
  }

  lemma CurrentMutation(db: Db, input: MutationInput, row: Record, at: Time, stamp: Stamp)
    requires DbSound(db) && Unused(db, stamp.eventId, stamp.outboxId)
    requires Load(db, input.tenantId, input.memoryId) == Some(row) && row.version == input.expectedVersion
    ensures var reply := WriteMutation(db, input, row, at, stamp).reply;
      if InRange(input.mutation) then reply.Mutated? else reply == Refused(ConstraintViolation)
  {
    assert RecordSound(db, input.memoryId);
    NextVersionIsFree(db, input.memoryId, MutationEvent(input.mutation));
  }

  /**
   * A patch, delete, pin or disable succeeds if and only if the ids are given, the tenant has
   * the record at the expected, positive version, and a patch asks for no importance outside
   * 0 to 1. Nothing else about the record matters: it may be pinned, disabled or deleted.
   */
  lemma MutationSucceedsIff(db: Db, input: MutationInput, at: Time, stamp: Stamp)
    requires DbSound(db) && Unused(db, stamp.eventId, stamp.outboxId)
    ensures MutationAnswer(db, input, AtomicChange(db, input, at, stamp).reply)
  {
    if HasVersion(db, input.tenantId, input.memoryId, input.expectedVersion) {
      CurrentMutation(db, input, db.records[input.memoryId], at, stamp);
    }
  }

  // --------------------------------------------------------------- promotions

  /** The request brings no key, or one that is not recorded. */
  predicate Unrecorded(db: Db, tenantId: TenantId, key: string) {
    key == "" || Scoped(tenantId, key) !in db.idempotency
  }

  /** Each answer of a promotion whose key is not recorded. */
  ghost predicate PromotionAnswer(db: Db, input: PromoteInput, reply: Reply) {
    var named := input.tenantId != "" && input.memoryId != "";
    var current := input.expectedVersion > 0 && HasVersion(db, input.tenantId, input.memoryId, input.expectedVersion);
    && (reply.Written? <==> named && current)
    && (reply.Written? ==> reply.result.created)
    && (reply == Refused(NotFound) <==> !named || !Has(db, input.tenantId, input.memoryId))
    && (reply == Refused(VersionConflict) <==> named && Has(db, input.tenantId, input.memoryId) && !current)
  }

  lemma CurrentPromotion(db: Db, input: PromoteInput, row: Record, at: Time, stamp: Stamp)
    requires DbSound(db) && Unused(db, stamp.eventId, stamp.outboxId) && Unrecorded(db, input.tenantId, input.key)
    requires Load(db, input.tenantId, input.memoryId) == Some(row)
    ensures var reply := WritePromotion(db, input, row, at, stamp).reply; reply.Written? && reply.result.created
  {
    assert RecordSound(db, input.memoryId);
    NextVersionIsFree(db, input.memoryId, MemoryPromoted);
  }

  /**
   * A promotion that is not a replay succeeds if and only if the ids are given and the tenant
   * has the record at the expected, positive version, whatever kind it has.
   */
  lemma PromotionSucceedsIff(db: Db, input: PromoteInput, at: Time, stamp: Stamp)
    requires DbSound(db) && Unused(db, stamp.eventId, stamp.outboxId) && Unrecorded(db, input.tenantId, input.key)
    ensures PromotionAnswer(db, input, AtomicPromotion(db, input, at, stamp).reply)
  {
    if Has(db, input.tenantId, input.memoryId) {
      CurrentPromotion(db, input, db.records[input.memoryId], at, stamp);
    }
  }

  // ------------------------------------------------------------------- writes

  /** Each answer of a write whose key is not recorded; `uuid` is the id drawn for a record without one. */
  ghost predicate WriteAnswer(db: Db, input: WriteInput, uuid: MemoryId, reply: Reply) {
    var complete := input.tenantId != "" && input.key != "" && input.requestHash != "";
    var m := if input.record.memoryId != "" then input.record.memoryId else uuid;
    var insertable := m !in db.records && 0.0 <= input.record.importance <= 1.0;
    && (reply.Written? <==> complete && insertable)
    && (reply == Refused(InvalidInput) <==> !complete)
    && (reply == Refused(ConstraintViolation) <==> complete && !insertable)
  }

  /** The first version of a record that is not there has no event. */
  lemma FirstVersionIsFree(db: Db, memoryId: MemoryId)
    requires DbSound(db) && memoryId !in db.records
    ensures EventKey(memoryId, 1, MemoryCreated) !in db.events
  {
    assert EventSound(db, EventKey(memoryId, 1, MemoryCreated));
  }

  lemma FreshInsert(db: Db, input: WriteInput, uuid: MemoryId, at: Time, stamp: Stamp)
    requires DbSound(db) && Unused(db, stamp.eventId, stamp.outboxId)
    requires Scoped(input.tenantId, input.key) !in db.idempotency
    ensures var m := if input.record.memoryId != "" then input.record.memoryId else uuid;
      var reply := WriteNew(db, input, uuid, at, stamp).reply;
      if m !in db.records && 0.0 <= input.record.importance <= 1.0 then reply.Written? else reply == Refused(ConstraintViolation)
  {
    var m := if input.record.memoryId != "" then input.record.memoryId else uuid;
    if m !in db.records {
      FirstVersionIsFree(db, m);
    }
  }

  /**
   * A write that is not a replay succeeds if and only if tenant, key and hash are given, the
   * record's id is not taken, and its importance is from 0 to 1.
   */
  lemma WriteSucceedsIff(db: Db, input: WriteInput, uuid: MemoryId, at: Time, stamp: Stamp)
    requires DbSound(db) && Unused(db, stamp.eventId, stamp.outboxId)
    requires Scoped(input.tenantId, input.key) !in db.idempotency
    ensures WriteAnswer(db, input, uuid, AtomicWrite(db, input, uuid, at, stamp).reply)
  {
    FreshInsert(db, input, uuid, at, stamp);
  }
}
