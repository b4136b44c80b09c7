/**
 * Unlocked reads with guarded writes behave like calls that run alone. The atomic machine
 * executes each call in one go on the tables of the moment it completes; every run of the
 * interleaved machine gives its tables and its answers, up to the access columns inside
 * logged snapshots, which MarkAccess may have changed since the read.
 */
module Atomicity {
  import opened Common
  import opened Entities
  import opened StoreModel
  import opened StoreInvariants

  // -------------------------------------------------------- the atomic machine

  datatype Op =
    | Write(write: WriteInput, uuid: MemoryId, at: Time, stamp: Stamp)
    | Change(mutate: MutationInput, at: Time, stamp: Stamp)
    | Promotion(promote: PromoteInput, at: Time, stamp: Stamp)
    | Access(tenantId: TenantId, ids: set<MemoryId>, at: Time)
    | Register(dedupe: DedupeInput)
    | Collapse(dedupe: DedupeInput, winnerId: MemoryId, winner: Record, at: Time, stamp: Stamp, collapse: Stamp)

  function AtomicWrite(db: Db, input: WriteInput, uuid: MemoryId, at: Time, stamp: Stamp): Result {
    if input.tenantId == "" || input.key == "" || input.requestHash == "" then Refuse(db, InvalidInput)
    else match Replay(db, Scoped(input.tenantId, input.key), input.requestHash)
      case Some(reply) => Result(db, reply)
      case None => WriteNew(db, input, uuid, at, stamp)
  }

  /** Read, check and write of a mutation, all on the same row. */
  function AtomicChange(db: Db, input: MutationInput, at: Time, stamp: Stamp): Result {
    if input.tenantId == "" || input.memoryId == "" then Refuse(db, NotFound)
    else if input.expectedVersion <= 0 then Refuse(db, VersionConflict)
    else match Load(db, input.tenantId, input.memoryId)
      case None => Refuse(db, NotFound)
      case Some(row) =>
        if row.version != input.expectedVersion then Refuse(db, VersionConflict)
        else WriteMutation(db, input, row, at, stamp)
  }

  /** Read, check and write of a promotion whose key is not recorded, all on the same row. */
  function AtomicPromote(db: Db, input: PromoteInput, at: Time, stamp: Stamp): Result {
    match Load(db, input.tenantId, input.memoryId)
    case None => Refuse(db, NotFound)
    case Some(row) =>
      if input.expectedVersion <= 0 || row.version != input.expectedVersion then Refuse(db, VersionConflict)
      else WritePromotion(db, input, row, at, stamp)
  }

  function AtomicPromotion(db: Db, input: PromoteInput, at: Time, stamp: Stamp): Result {
    var recorded: Option<Reply> := if input.key == "" then None else Replay(db, Scoped(input.tenantId, input.key), HashOf(input));
    if input.tenantId == "" || input.memoryId == "" then Refuse(db, NotFound)
    else match recorded
      case Some(Written(r)) => Result(db, Written(r.(created := false)))
      case Some(reply) => Result(db, reply)
      case None => AtomicPromote(db, input, at, stamp)
  }

  /** The collision path on the loser's current row; the winner snapshot is given. */
  function AtomicCollapse(db: Db, input: DedupeInput, winnerId: MemoryId, winner: Record, at: Time,
                          stamp: Stamp, collapse: Stamp): Result {
    match Load(db, input.tenantId, input.candidateId)
    case None => Refuse(db, NotFound)
    case Some(row) => WriteCollapse(db, input, winnerId, row, at, winner, stamp, collapse)
  }

  function Atomic(db: Db, op: Op): Result {
    match op
    case Write(input, uuid, at, stamp) => AtomicWrite(db, input, uuid, at, stamp)
    case Change(input, at, stamp) => AtomicChange(db, input, at, stamp)
    case Promotion(input, at, stamp) => AtomicPromotion(db, input, at, stamp)
    case Access(tenantId, ids, at) => Result(Touch(db, tenantId, ids, at), Done)
    case Register(input) => ClaimWinner(db, input)
    case Collapse(input, winnerId, winner, at, stamp, collapse) =>
      AtomicCollapse(db, input, winnerId, winner, at, stamp, collapse)
  }

  // ------------------------------------------------- equal up to access columns

  function BlurEvents(events: map<EventKey, Event>): map<EventKey, Event> {
    map k | k in events :: events[k].(snapshot := Versioned(events[k].snapshot))
  }

  function BlurMessage(q: Enqueued): Enqueued {
    q.(message := q.message.(record := Versioned(q.message.record)))
  }

  function BlurOutbox(outbox: map<OutboxId, Enqueued>): map<OutboxId, Enqueued> {
    map o | o in outbox :: BlurMessage(outbox[o])
  }

  function BlurWritten(r: WriteResult): WriteResult {
    r.(record := Versioned(r.record))
  }

  function BlurEntry(e: IdempotencyEntry): IdempotencyEntry {
    e.(response := BlurWritten(e.response))
  }

  function BlurEntries(entries: map<Scoped, IdempotencyEntry>): map<Scoped, IdempotencyEntry> {
    map k | k in entries :: BlurEntry(entries[k])
  }

  /** The tables with the access columns of every logged snapshot forgotten; the rows keep theirs. */
  function Blur(db: Db): Db {
    Db(db.records, BlurEvents(db.events), BlurOutbox(db.outbox), BlurEntries(db.idempotency), db.winners)
  }

  function BlurReply(r: Reply): Reply {
    match r
    case Written(x) => Written(BlurWritten(x))
    case Mutated(x) => Mutated(Versioned(x))
    case _ => r
  }

  predicate SameReply(r: Reply, q: Reply) {
    BlurReply(r) == BlurReply(q)
  }

  predicate Agrees(db: Db, db0: Db) {
    Blur(db) == Blur(db0)
  }

  predicate SameOutcome(r: Result, q: Result) {
    SameReply(r.reply, q.reply) && Agrees(r.db, q.db)
  }

  // -------------------------------------------------------------- congruence

  lemma BlurredEmit(db: Db, r: Record, t: EventType, stamp: Stamp, key: Option<string>, loser: Option<MemoryId>)
    ensures Blur(Emit(db, r, t, stamp, key, loser)) == Emit(Blur(db), Versioned(r), t, stamp, key, loser)
  {
    assert BlurEvents(Emit(db, r, t, stamp, key, loser).events) == Emit(Blur(db), Versioned(r), t, stamp, key, loser).events;
    assert BlurOutbox(Emit(db, r, t, stamp, key, loser).outbox) == Emit(Blur(db), Versioned(r), t, stamp, key, loser).outbox;
  }

  lemma BlurredMayEmit(db: Db, r: Record, t: EventType, stamp: Stamp)
    ensures MayEmit(db, r, t, stamp) == MayEmit(Blur(db), Versioned(r), t, stamp)
  {
    var b := Blur(db);
    assert forall k :: k in db.events <==> k in b.events;
    assert forall k :: k in db.events ==> b.events[k].eventId == db.events[k].eventId;
    assert forall o :: o in db.outbox <==> o in b.outbox;
  }

  lemma BlurredEntry(entries: map<Scoped, IdempotencyEntry>, scope: Scoped, e: IdempotencyEntry)
    ensures BlurEntries(entries[scope := e]) == BlurEntries(entries)[scope := BlurEntry(e)]
    ensures scope in entries <==> scope in BlurEntries(entries)
  {
  }

  /** The same record emitted, up to access columns, into agreeing tables. */
  lemma EmitAgrees(db: Db, db0: Db, r: Record, q: Record, t: EventType, stamp: Stamp, key: Option<string>, loser: Option<MemoryId>)
    requires Agrees(db, db0) && SameVersioned(r, q)
    ensures MayEmit(db, r, t, stamp) <==> MayEmit(db0, q, t, stamp)
    ensures Agrees(Emit(db, r, t, stamp, key, loser), Emit(db0, q, t, stamp, key, loser))
  {
    BlurredMayEmit(db, r, t, stamp);
    BlurredMayEmit(db0, q, t, stamp);
    BlurredEmit(db, r, t, stamp, key, loser);
    BlurredEmit(db0, q, t, stamp, key, loser);
  }

  /** A mutation reads no access column. */
  lemma MutateIgnoresAccess(m: Mutation, r: Record, q: Record, latest: Record, at: Time)
    requires SameVersioned(r, q)
    ensures SameVersioned(Mutate(m, r, at), Mutate(m, q, at))
    ensures SetMutationColumns(latest, Mutate(m, r, at)) == SetMutationColumns(latest, Mutate(m, q, at))
    ensures ImportanceAllowed(Mutate(m, r, at)) <==> ImportanceAllowed(Mutate(m, q, at))
  {
  }

  /** The same row written and the same record shown, up to access columns, in agreeing tables. */
  lemma VersionAgrees(db: Db, db0: Db, m: MemoryId, row: Record, r: Record, q: Record, t: EventType, stamp: Stamp,
                      key: Option<string>)
    requires Agrees(db, db0) && SameVersioned(r, q)
    ensures var w, w0 := WriteVersion(db, m, row, r, t, stamp, key), WriteVersion(db0, m, row, q, t, stamp, key);
      (w.Some? <==> w0.Some?) && (w.Some? ==> Agrees(w.value, w0.value))
  {
    var records := db.records[m := row];
    EmitAgrees(db, db0, r, q, t, stamp, key, None);
    EmitAgrees(db.(records := records), db0.(records := records), r, q, t, stamp, key, None);
  }

  lemma StoredMutationAgrees(db: Db, db0: Db, m: MemoryId, row: Record, r: Record, q: Record, t: EventType, stamp: Stamp)
    requires Agrees(db, db0) && SameVersioned(r, q)
    ensures SameOutcome(StoreMutation(db, m, row, r, t, stamp), StoreMutation(db0, m, row, q, t, stamp))
  {
    if ImportanceAllowed(r) {
      VersionAgrees(db, db0, m, row, r, q, t, stamp, None);
    } else {
      assert r.importance == q.importance;
    }
  }

  /** A write computed from an older read of the same version is the write computed from the row. */
  lemma MutationAgrees(db: Db, db0: Db, input: MutationInput, read: Record, row: Record, at: Time, stamp: Stamp)
    requires Agrees(db, db0) && SameVersioned(read, row)
    ensures SameOutcome(WriteMutation(db, input, read, at, stamp), WriteMutation(db0, input, row, at, stamp))
  {
    var latest := Load(db, input.tenantId, input.memoryId);
    if latest.Some? {
      var to, to0 := Mutate(input.mutation, read, at), Mutate(input.mutation, row, at);
      MutateIgnoresAccess(input.mutation, read, row, latest.value, at);
      StoredMutationAgrees(db, db0, input.memoryId, SetMutationColumns(latest.value, to), to, to0,
                           MutationEvent(input.mutation), stamp);
    }
  }

  lemma PromotionIgnoresAccess(r: Record, q: Record, latest: Record, sourceEventId: string, at: Time)
    requires SameVersioned(r, q)
    ensures SameVersioned(PromoteRecord(r, sourceEventId, at), PromoteRecord(q, sourceEventId, at))
    ensures SetPromotionColumns(latest, PromoteRecord(r, sourceEventId, at))
         == SetPromotionColumns(latest, PromoteRecord(q, sourceEventId, at))
  {
  }

  lemma RecordedAgrees(db: Db, db0: Db, scope: Scoped)
    requires Agrees(db, db0)
    ensures scope in db.idempotency <==> scope in db0.idempotency
  {
    assert scope in db.idempotency <==> scope in BlurEntries(db.idempotency);
    assert scope in db0.idempotency <==> scope in BlurEntries(db0.idempotency);
  }

  /** Recording the same response, up to access columns. */
  lemma ResponseAgrees(db: Db, db0: Db, scope: Scoped, requestHash: string, r: WriteResult, q: WriteResult)
    requires Agrees(db, db0) && BlurWritten(r) == BlurWritten(q)
    ensures SameOutcome(RecordResponse(db, scope, requestHash, r), RecordResponse(db0, scope, requestHash, q))
  {
    BlurredEntry(db.idempotency, scope, IdempotencyEntry(requestHash, r));
    BlurredEntry(db0.idempotency, scope, IdempotencyEntry(requestHash, q));
  }

  lemma KeyedPromotionAgrees(db: Db, db0: Db, input: PromoteInput, row: Record, r: Record, q: Record, stamp: Stamp)
    requires Agrees(db, db0) && SameVersioned(r, q)
    requires input.key != "" && !StorePromotion(db, input, row, r, stamp).reply.Refused?
    ensures SameOutcome(StorePromotion(db, input, row, r, stamp), StorePromotion(db0, input, row, q, stamp))
  {
    var scope := Scoped(input.tenantId, input.key);
    VersionAgrees(db, db0, input.memoryId, row, r, q, MemoryPromoted, stamp, None);
    RecordedAgrees(db, db0, scope);
    ResponseAgrees(WriteVersion(db, input.memoryId, row, r, MemoryPromoted, stamp, None).value,
                   WriteVersion(db0, input.memoryId, row, q, MemoryPromoted, stamp, None).value, scope, HashOf(input),
                   WriteResult(r.memoryId, r.version, true, r), WriteResult(q.memoryId, q.version, true, q));
  }

  lemma StoredPromotionAgrees(db: Db, db0: Db, input: PromoteInput, row: Record, r: Record, q: Record, stamp: Stamp)
    requires Agrees(db, db0) && SameVersioned(r, q)
    ensures SameOutcome(StorePromotion(db, input, row, r, stamp), StorePromotion(db0, input, row, q, stamp))
  {
    if input.key != "" && !StorePromotion(db, input, row, r, stamp).reply.Refused? {
      KeyedPromotionAgrees(db, db0, input, row, r, q, stamp);
    } else {
      VersionAgrees(db, db0, input.memoryId, row, r, q, MemoryPromoted, stamp, None);
      RecordedAgrees(db, db0, Scoped(input.tenantId, input.key));
    }
  }

  lemma PromotionAgrees(db: Db, db0: Db, input: PromoteInput, read: Record, row: Record, at: Time, stamp: Stamp)
    requires Agrees(db, db0) && SameVersioned(read, row)
    ensures SameOutcome(WritePromotion(db, input, read, at, stamp), WritePromotion(db0, input, row, at, stamp))
  {
    var latest := Load(db, input.tenantId, input.memoryId);
    if latest.Some? {
      var to, to0 := PromoteRecord(read, input.sourceEventId, at), PromoteRecord(row, input.sourceEventId, at);
      PromotionIgnoresAccess(read, row, latest.value, input.sourceEventId, at);
      StoredPromotionAgrees(db, db0, input, SetPromotionColumns(latest.value, to), to, to0, stamp);
    }
  }

  lemma InsertAgrees(db: Db, db0: Db, input: WriteInput, uuid: MemoryId, at: Time, stamp: Stamp)
    requires Agrees(db, db0)
    ensures SameOutcome(WriteNew(db, input, uuid, at, stamp), WriteNew(db0, input, uuid, at, stamp))
  {
    var r, scope := NewRecord(input, uuid, at), Scoped(input.tenantId, input.key);
    var result := WriteResult(r.memoryId, r.version, true, r);
    VersionAgrees(db, db0, r.memoryId, r, r, r, MemoryCreated, stamp, Some(input.key));
    RecordedAgrees(db, db0, scope);
    var w := WriteVersion(db, r.memoryId, r, r, MemoryCreated, stamp, Some(input.key));
    if w.Some? {
      var w0 := WriteVersion(db0, r.memoryId, r, r, MemoryCreated, stamp, Some(input.key));
      ResponseAgrees(w.value, w0.value, scope, input.requestHash, result, result);
    }
  }

  /** The same snapshot of the winner, up to access columns, after agreeing tombstones. */
  lemma FinishAgrees(db: Db, db0: Db, r: Result, r0: Result, winnerId: MemoryId, loserId: MemoryId,
                     winner: Record, winner0: Record, collapse: Stamp)
    requires Agrees(db, db0) && SameOutcome(r, r0) && SameVersioned(winner, winner0)
    ensures SameOutcome(FinishCollapse(db, r, winnerId, loserId, winner, collapse),
                        FinishCollapse(db0, r0, winnerId, loserId, winner0, collapse))
  {
    if !r.reply.Refused? {
      EmitAgrees(r.db, r0.db, winner, winner0, MemoryDedupeCollapsed, collapse, None, Some(loserId));
    }
  }

  lemma CollapseAgrees(db: Db, db0: Db, input: DedupeInput, winnerId: MemoryId, read: Record, row: Record, winner: Record,
                       at: Time, stamp: Stamp, collapse: Stamp)
    requires Agrees(db, db0) && SameVersioned(read, row)
    ensures SameOutcome(WriteCollapse(db, input, winnerId, read, at, winner, stamp, collapse),
                        WriteCollapse(db0, input, winnerId, row, at, winner, stamp, collapse))
  {
    MutationAgrees(db, db0, LoserInput(input), read, row, at, stamp);
    FinishAgrees(db, db0, WriteMutation(db, LoserInput(input), read, at, stamp),
                 WriteMutation(db0, LoserInput(input), row, at, stamp), winnerId, input.candidateId, winner, winner, collapse);
  }

  lemma ReplayAgrees(db: Db, db0: Db, scope: Scoped, requestHash: string)
    requires Agrees(db, db0)
    ensures Replay(db, scope, requestHash).Some? <==> Replay(db0, scope, requestHash).Some?
    ensures Replay(db, scope, requestHash).Some? ==>
      SameReply(Replay(db, scope, requestHash).value, Replay(db0, scope, requestHash).value)
  {
    RecordedAgrees(db, db0, scope);
    if scope in db.idempotency {
      assert BlurEntries(db.idempotency)[scope] == BlurEntry(db.idempotency[scope]);
      assert BlurEntries(db0.idempotency)[scope] == BlurEntry(db0.idempotency[scope]);
    }
  }

  lemma AtomicWriteAgrees(db: Db, db0: Db, input: WriteInput, uuid: MemoryId, at: Time, stamp: Stamp)
    requires Agrees(db, db0)
    ensures SameOutcome(AtomicWrite(db, input, uuid, at, stamp), AtomicWrite(db0, input, uuid, at, stamp))
  {
    ReplayAgrees(db, db0, Scoped(input.tenantId, input.key), input.requestHash);
    InsertAgrees(db, db0, input, uuid, at, stamp);
  }

  lemma AtomicChangeAgrees(db: Db, db0: Db, input: MutationInput, at: Time, stamp: Stamp)
    requires Agrees(db, db0)
    ensures SameOutcome(AtomicChange(db, input, at, stamp), AtomicChange(db0, input, at, stamp))
  {
    var row := Load(db, input.tenantId, input.memoryId);
    if row.Some? {
      MutationAgrees(db, db0, input, row.value, row.value, at, stamp);
    }
  }

  lemma AtomicPromoteAgrees(db: Db, db0: Db, input: PromoteInput, at: Time, stamp: Stamp)
    requires Agrees(db, db0)
    ensures SameOutcome(AtomicPromote(db, input, at, stamp), AtomicPromote(db0, input, at, stamp))
  {
    var row := Load(db, input.tenantId, input.memoryId);
    if row.Some? {
      PromotionAgrees(db, db0, input, row.value, row.value, at, stamp);
    }
  }

  lemma AtomicPromotionAgrees(db: Db, db0: Db, input: PromoteInput, at: Time, stamp: Stamp)
    requires Agrees(db, db0)
    ensures SameOutcome(AtomicPromotion(db, input, at, stamp), AtomicPromotion(db0, input, at, stamp))
  {
    ReplayAgrees(db, db0, Scoped(input.tenantId, input.key), HashOf(input));
    AtomicPromoteAgrees(db, db0, input, at, stamp);
  }

  /** The atomic machine cannot see the access columns of snapshots either. */
  lemma AtomicAgrees(db: Db, db0: Db, op: Op)
    requires Agrees(db, db0)
    ensures SameOutcome(Atomic(db, op), Atomic(db0, op))
  {
    match op
    case Write(input, uuid, at, stamp) => AtomicWriteAgrees(db, db0, input, uuid, at, stamp);
    case Change(input, at, stamp) => AtomicChangeAgrees(db, db0, input, at, stamp);
    case Promotion(input, at, stamp) => AtomicPromotionAgrees(db, db0, input, at, stamp);
    case Access(_, _, _) =>
    case Register(_) =>
    case Collapse(input, winnerId, winner, at, stamp, collapse) =>
      var row := Load(db, input.tenantId, input.candidateId);
      if row.Some? {
        CollapseAgrees(db, db0, input, winnerId, row.value, row.value, winner, at, stamp, collapse);
      }
  }

  // --------------------------------------------------------------- refinement

  const NO_STAMP := Stamp(0, 0, 0)

  /** The call an action works for, with everything the call itself does not decide. */
  function OpOf(s: State, a: Action): Option<Op>
    requires Enabled(s, a)
  {
    match a
    case Tick(_) => None
    case Abort(_) => None
    case WriteLookup(_, input) => Some(Write(input, "", 0, NO_STAMP))
    case WriteCommit(tx, uuid, at, e, o) => Some(Write(s.txs[tx].write, uuid, at, Stamp(e, o, s.txs[tx].startedAt)))
    case MutateRead(_, input) => Some(Change(input, 0, NO_STAMP))
    case MutateCommit(tx, at, e, o) => Some(Change(s.txs[tx].mutate, at, Stamp(e, o, s.txs[tx].startedAt)))
    case PromoteLookup(_, input) => Some(Promotion(input, 0, NO_STAMP))
    case PromoteRead(tx) => Some(Promotion(s.txs[tx].promote, 0, NO_STAMP))
    case PromoteCommit(tx, at, e, o) => Some(Promotion(s.txs[tx].promote, at, Stamp(e, o, s.txs[tx].startedAt)))
    case DedupeClaim(_, input) => Some(Register(input))
    case DedupeReadLoser(_) => None
    case DedupeReadWinner(_, _) => None
    case DedupeCommit(tx, e, o, ce, co) =>
      var t := s.txs[tx];
      Some(Collapse(t.dedupe, t.winnerId, t.winner, t.at, Stamp(e, o, t.startedAt), Stamp(ce, co, t.startedAt)))
    case MarkAccess(tenantId, ids, at) => Some(Access(tenantId, (set m | m in ids), at))
  }

  /** The call ends with an answer that is not an error. */
  ghost predicate Accepted(s: State, a: Action)
    requires Enabled(s, a)
  {
    OpOf(s, a).Some? && Outcome(s, a).reply != StillOpen && !Outcome(s, a).reply.Refused?
  }

  lemma ReadIsRow(db: Db, read: Record, tenantId: TenantId, memoryId: MemoryId, version: int)
    requires LogSound(db) && ReadFor(db, read, tenantId, memoryId, version)
    ensures Load(db, tenantId, memoryId).Some? && version >= 1
    ensures Load(db, tenantId, memoryId).value.version == version ==> SameVersioned(read, Load(db, tenantId, memoryId).value)
  {
    if db.records[memoryId].version == version {
      KnownNewestIsRow(db, read);
    }
  }

  /** A mutation's commit, accepted or refused, is the atomic read-modify-write at that moment. */
  lemma MutateCommitIsAtomic(s: State, a: Action)
    requires StateSound(s) && a.MutateCommit? && Enabled(s, a)
    ensures SameOutcome(Outcome(s, a), Atomic(s.db, OpOf(s, a).value))
  {
    var t := s.txs[a.tx];
    assert TxSound(s.db, t);
    ReadIsRow(s.db, t.read, t.mutate.tenantId, t.mutate.memoryId, t.mutate.expectedVersion);
    var row := Load(s.db, t.mutate.tenantId, t.mutate.memoryId).value;
    if row.version == t.mutate.expectedVersion {
      MutationAgrees(s.db, s.db, t.mutate, t.read, row, a.at, Stamp(a.eventId, a.outboxId, t.startedAt));
    }
  }

  lemma PromotionIsAtomic(db: Db, t: Tx, at: Time, stamp: Stamp)
    requires LogSound(db) && t.PromoteOpen? && TxSound(db, t)
    requires !WritePromotion(db, t.promote, t.read, at, stamp).reply.Refused?
    ensures SameOutcome(WritePromotion(db, t.promote, t.read, at, stamp), AtomicPromotion(db, t.promote, at, stamp))
  {
    ReadIsRow(db, t.read, t.promote.tenantId, t.promote.memoryId, t.promote.expectedVersion);
    var row := Load(db, t.promote.tenantId, t.promote.memoryId).value;
    PromotionAgrees(db, db, t.promote, t.read, row, at, stamp);
  }

  /** A promotion that commits is the atomic one; the key cannot have been recorded meanwhile. */
  lemma PromoteCommitIsAtomic(s: State, a: Action)
    requires StateSound(s) && a.PromoteCommit? && Enabled(s, a) && !Outcome(s, a).reply.Refused?
    ensures SameOutcome(Outcome(s, a), Atomic(s.db, OpOf(s, a).value))
  {
    var t := s.txs[a.tx];
    assert TxSound(s.db, t);
    PromotionIsAtomic(s.db, t, a.at, Stamp(a.eventId, a.outboxId, t.startedAt));
  }

  /** The collapse of a sound transaction whose guard still holds is the atomic one. */
  lemma CollapseIsAtomic(db: Db, t: Tx, stamp: Stamp, collapse: Stamp)
    requires LogSound(db) && t.CollapseOpen? && TxSound(db, t)
    requires !WriteCollapse(db, t.dedupe, t.winnerId, t.read, t.at, t.winner, stamp, collapse).reply.Refused?
    ensures SameOutcome(WriteCollapse(db, t.dedupe, t.winnerId, t.read, t.at, t.winner, stamp, collapse),
                        AtomicCollapse(db, t.dedupe, t.winnerId, t.winner, t.at, stamp, collapse))
  {
    ReadIsRow(db, t.read, t.dedupe.tenantId, t.dedupe.candidateId, t.dedupe.candidateVersion);
    var row := Load(db, t.dedupe.tenantId, t.dedupe.candidateId).value;
    CollapseAgrees(db, db, t.dedupe, t.winnerId, t.read, row, t.winner, t.at, stamp, collapse);
  }

  lemma CollapseOutcome(s: State, tx: TxId, e: EventId, o: OutboxId, ce: EventId, co: OutboxId)
    requires StateSound(s) && tx in s.txs && s.txs[tx].CollapseOpen?
    requires !Outcome(s, DedupeCommit(tx, e, o, ce, co)).reply.Refused?
    ensures var t := s.txs[tx];
      SameOutcome(Outcome(s, DedupeCommit(tx, e, o, ce, co)),
                  AtomicCollapse(s.db, t.dedupe, t.winnerId, t.winner, t.at, Stamp(e, o, t.startedAt), Stamp(ce, co, t.startedAt)))
  {
    assert TxSound(s.db, s.txs[tx]);
    CollapseIsAtomic(s.db, s.txs[tx], Stamp(e, o, s.txs[tx].startedAt), Stamp(ce, co, s.txs[tx].startedAt));
  }

  lemma CollapseOp(s: State, tx: TxId, e: EventId, o: OutboxId, ce: EventId, co: OutboxId)
    requires tx in s.txs && s.txs[tx].CollapseOpen?
    ensures var t := s.txs[tx];
      Atomic(s.db, OpOf(s, DedupeCommit(tx, e, o, ce, co)).value)
      == AtomicCollapse(s.db, t.dedupe, t.winnerId, t.winner, t.at, Stamp(e, o, t.startedAt), Stamp(ce, co, t.startedAt))
  {
  }

  /** A collapse that commits is the atomic one, on the winner snapshot it read. */
  lemma CollapseCommitIsAtomic(s: State, tx: TxId, e: EventId, o: OutboxId, ce: EventId, co: OutboxId)
    requires StateSound(s) && tx in s.txs && s.txs[tx].CollapseOpen?
    requires !Outcome(s, DedupeCommit(tx, e, o, ce, co)).reply.Refused?
    ensures var a := DedupeCommit(tx, e, o, ce, co); SameOutcome(Outcome(s, a), Atomic(s.db, OpOf(s, a).value))
  {
    CollapseOutcome(s, tx, e, o, ce, co);
    CollapseOp(s, tx, e, o, ce, co);
  }

  /** Every accepted call has, at the moment it completes, the effect and the answer of the atomic call. */
  lemma AcceptedIsAtomic(s: State, a: Action)
    requires StateSound(s) && Enabled(s, a) && Accepted(s, a)
    ensures SameOutcome(Outcome(s, a), Atomic(s.db, OpOf(s, a).value))
  {
    match a
    case MutateCommit(_, _, _, _) => MutateCommitIsAtomic(s, a);
    case PromoteCommit(_, _, _, _) => PromoteCommitIsAtomic(s, a);
    case DedupeCommit(tx, e, o, ce, co) => CollapseCommitIsAtomic(s, tx, e, o, ce, co);
    case WriteCommit(tx, _, _, _, _) => assert TxSound(s.db, s.txs[tx]);
    case _ =>
  }

  /** The tables the atomic machine has after running the accepted calls of a history, in the order they completed. */
  function AtomicRun(h: History): Db {
    match h
    case Empty => EMPTY_DB
    case Then(before, a) =>
      var s := After(before);
      if s.Some? && Enabled(s.value, a) && OpOf(s.value, a).Some?
         && Outcome(s.value, a).reply != StillOpen && !Outcome(s.value, a).reply.Refused?
      then Atomic(AtomicRun(before), OpOf(s.value, a).value).db
      else AtomicRun(before)
  }

  /** A call that is refused, or not finished, changes nothing. */
  lemma OthersChangeNothing(s: State, a: Action)
    requires Enabled(s, a) && !Accepted(s, a)
    ensures Outcome(s, a).db == s.db
  {
  }

  /**
   * Refinement. Every run of the interleaved transactions leaves the tables that the
   * accepted calls leave when each runs alone, one after another, on the inputs it was given.
   */
  lemma {:induction false} InterleavingRefinesAtomic(h: History, s: State)
    requires After(h) == Some(s)
    ensures Agrees(s.db, AtomicRun(h))
  {
    if h.Then? {
      var t := After(h.before).value;
      InterleavingRefinesAtomic(h.before, t);
      Reachable(h.before, t);
      if Accepted(t, h.last) {
        AcceptedIsAtomic(t, h.last);
        AtomicAgrees(t.db, AtomicRun(h.before), OpOf(t, h.last).value);
      } else {
        OthersChangeNothing(t, h.last);
      }
    }
  }

  /** And the caller of an accepted call gets the answer the atomic machine gives it. */
  lemma AnswersAreAtomic(h: History, s: State, a: Action)
    requires After(h) == Some(s) && Enabled(s, a) && Accepted(s, a)
    ensures SameReply(Outcome(s, a).reply, Atomic(AtomicRun(h), OpOf(s, a).value).reply)
  {
    Reachable(h, s);
    InterleavingRefinesAtomic(h, s);
    AcceptedIsAtomic(s, a);
    AtomicAgrees(s.db, AtomicRun(h), OpOf(s, a).value);
  }

  // ---------------------------------------------------------------- refusals

  /** A mutation is refused, at its read or at its commit, exactly as the atomic one would be then. */
  lemma RefusedMutationIsAtomic(s: State, a: Action)
    requires StateSound(s) && Enabled(s, a) && (a.MutateRead? || a.MutateCommit?) && Outcome(s, a).reply.Refused?
    ensures Atomic(s.db, OpOf(s, a).value).reply == Outcome(s, a).reply
  {
    if a.MutateCommit? {
      MutateCommitIsAtomic(s, a);
    }
  }

  /**
   * A promotion is refused as the atomic one would be, with one exception: when a duplicate
   * with the same key committed after this one's lookup, the atomic call would have replayed
   * its response and this one is refused instead.
   */
  lemma RefusedPromotionIsAtomicUnlessOvertaken(s: State, a: Action)
    requires StateSound(s) && Enabled(s, a) && (a.PromoteRead? || a.PromoteCommit?) && Outcome(s, a).reply.Refused?
    ensures var input := s.txs[a.tx].promote;
      Atomic(s.db, OpOf(s, a).value).reply == Outcome(s, a).reply
      <==> input.key == "" || Scoped(input.tenantId, input.key) !in s.db.idempotency
  {
    var t := s.txs[a.tx];
    assert TxSound(s.db, t);
    if a.PromoteCommit? {
      ReadIsRow(s.db, t.read, t.promote.tenantId, t.promote.memoryId, t.promote.expectedVersion);
      var row := Load(s.db, t.promote.tenantId, t.promote.memoryId).value;
      if row.version == t.promote.expectedVersion {
        PromotionAgrees(s.db, s.db, t.promote, t.read, row, a.at, Stamp(a.eventId, a.outboxId, t.startedAt));
      }
    }
  }

  /** A write is refused at its commit as the atomic one would be if and only if no duplicate with its key got in first. */
  lemma RefusedWriteIsAtomicUnlessOvertaken(s: State, a: Action)
    requires StateSound(s) && Enabled(s, a) && a.WriteCommit? && Outcome(s, a).reply.Refused?
    ensures var input := s.txs[a.tx].write;
      Atomic(s.db, OpOf(s, a).value).reply == Outcome(s, a).reply <==> Scoped(input.tenantId, input.key) !in s.db.idempotency
  {
    assert TxSound(s.db, s.txs[a.tx]);
  }
}
