/**
 * The record store as a step machine. Every transaction reads without locking anything and
 * later writes; other transactions commit between its reads and its write. A transaction's
 * writes and its commit are one step: the row lock its UPDATE takes is held until the
 * commit, so the guard still holds then, and nothing it wrote is visible earlier.
 */
module StoreModel {
  import opened Common
  import opened Entities
  import PromoteHash

  // ------------------------------------------------------------------- tables

  /** UNIQUE (memory_id, version, event_type) of the event table. */
  datatype EventKey = EventKey(memoryId: MemoryId, version: int, eventType: EventType)

  datatype Event = Event(
    eventId: EventId,
    tenantId: TenantId,
    idempotencyKey: Option<string>,
    createdAt: Time,
    snapshot: Record,
    loser: Option<MemoryId>)

  /** An outbox row as a writer leaves it: pending, unclaimed. */
  datatype Enqueued = Enqueued(message: OutboxMessage, createdAt: Time)

  datatype WriteResult = WriteResult(memoryId: MemoryId, version: int, created: bool, record: Record)

  datatype IdempotencyEntry = IdempotencyEntry(requestHash: string, response: WriteResult)

  /** A row of a table keyed per tenant. */
  datatype Scoped = Scoped(tenantId: TenantId, key: string)

  /** The five tables; the map keys are the primary and unique keys. */
  datatype Db = Db(
    records: map<MemoryId, Record>,
    events: map<EventKey, Event>,
    outbox: map<OutboxId, Enqueued>,
    idempotency: map<Scoped, IdempotencyEntry>,
    winners: map<Scoped, MemoryId>)

  // ----------------------------------------------------------------- requests

  datatype Mutation =
    | Patch(content: string, category: string, tags: Option<seq<string>>, importance: real)
    | Delete
    | Pin(pinned: bool)
    | Disable(disabled: bool)

  datatype MutationInput = MutationInput(tenantId: TenantId, memoryId: MemoryId, expectedVersion: int, mutation: Mutation)
  datatype WriteInput = WriteInput(tenantId: TenantId, key: string, requestHash: string, record: Record)
  datatype PromoteInput = PromoteInput(tenantId: TenantId, memoryId: MemoryId, sourceEventId: string,
                                       expectedVersion: int, key: string)
  datatype DedupeInput = DedupeInput(tenantId: TenantId, dedupeKey: string, candidateId: MemoryId, candidateVersion: int)

  datatype Error = InvalidInput | NotFound | VersionConflict | IdempotencyConflict | ConstraintViolation

  datatype DedupeAction = NoCollision | MergedExisting | CollapsedByPin

  datatype Reply =
    | StillOpen
    | Written(result: WriteResult)
    | Mutated(record: Record)
    | Resolved(winnerId: MemoryId, action: DedupeAction)
    | Done
    | Refused(error: Error)

  // ------------------------------------------------------------ record changes

  /** Go's zero time, on the nanosecond scale of the clock. */
  const ZERO_TIME: Time := -62_135_596_800_000_000_000

  /** The apply closures, followed by the version increment. */
  function Mutate(m: Mutation, r: Record, now: Time): Record {
    var changed := match m
      case Patch(content, category, tags, importance) =>
        r.(content := if content != "" then content else r.content,
           category := if category != "" then category else r.category,
           tags := if tags.Some? then tags.value else r.tags,
           importance := if importance != 0.0 then importance else r.importance)
      case Delete => r.(deleted := true, deletedAt := Some(now))
      case Pin(on) => r.(pinned := on)
      case Disable(on) => r.(disabled := on);
    changed.(updatedAt := now, version := r.version + 1)
  }

  function MutationEvent(m: Mutation): EventType {
    match m
    case Patch(_, _, _, _) => MemoryUpdated
    case Delete => MemoryDeleted
    case Pin(on) => if on then MemoryPinned else MemoryUnpinned
    case Disable(on) => if on then MemoryDisabled else MemoryEnabled
  }

  function PromoteRecord(r: Record, sourceEventId: string, now: Time): Record {
    r.(kind := Episodic, consolidatedFrom := sourceEventId, updatedAt := now, version := r.version + 1)
  }

  /** The columns the mutation UPDATE writes. */
  function SetMutationColumns(row: Record, to: Record): Record {
    row.(category := to.category, content := to.content, tags := to.tags, importance := to.importance,
         pinned := to.pinned, disabled := to.disabled, deleted := to.deleted, version := to.version,
         updatedAt := to.updatedAt, deletedAt := to.deletedAt)
  }

  /** The columns the promotion UPDATE writes. */
  function SetPromotionColumns(row: Record, to: Record): Record {
    row.(kind := to.kind, consolidatedFrom := to.consolidatedFrom, version := to.version, updatedAt := to.updatedAt)
  }

  /** The record WriteRecord inserts. */
  function NewRecord(input: WriteInput, uuid: MemoryId, now: Time): Record {
    var r := input.record;
    r.(tenantId := input.tenantId,
       memoryId := if r.memoryId == "" then uuid else r.memoryId,
       origin := if r.origin.createdAt == ZERO_TIME then r.origin.(createdAt := now) else r.origin,
       updatedAt := now,
       version := 1)
  }

  /** CHECK (importance >= 0 AND importance <= 1). */
  predicate ImportanceAllowed(r: Record) {
    0.0 <= r.importance <= 1.0
  }

  // --------------------------------------------------------------- statements

  function Load(db: Db, tenantId: TenantId, memoryId: MemoryId): Option<Record> {
    if memoryId in db.records && db.records[memoryId].tenantId == tenantId then Some(db.records[memoryId]) else None
  }

  /** The ids and transaction start an insert into the event table and the outbox uses. */
  datatype Stamp = Stamp(eventId: EventId, outboxId: OutboxId, startedAt: Time)

  /** The unique keys the two inserts are checked against. */
  predicate MayEmit(db: Db, r: Record, eventType: EventType, stamp: Stamp) {
    && EventKey(r.memoryId, r.version, eventType) !in db.events
    && (forall k :: k in db.events ==> db.events[k].eventId != stamp.eventId)
    && stamp.outboxId !in db.outbox
  }

  function MessageOf(r: Record, eventType: EventType, eventId: EventId, loser: Option<MemoryId>): OutboxMessage {
    OutboxMessage(r.version, r.tenantId, r.memoryId, eventType, eventId, r, loser)
  }

  /** Inserts the event and its outbox row. */
  function Emit(db: Db, r: Record, eventType: EventType, stamp: Stamp, key: Option<string>, loser: Option<MemoryId>): Db {
    db.(events := db.events[EventKey(r.memoryId, r.version, eventType) :=
          Event(stamp.eventId, r.tenantId, key, stamp.startedAt, r, loser)],
        outbox := db.outbox[stamp.outboxId :=
          Enqueued(MessageOf(r, eventType, stamp.eventId, loser), stamp.startedAt)])
  }

  /** What a transaction does when it ends: the tables it leaves and the answer of the call. */
  datatype Result = Result(db: Db, reply: Reply)

  function Refuse(db: Db, e: Error): Result {
    Result(db, Refused(e))
  }

  /** Writes row m, then inserts the event showing `to` and its outbox row; None when a unique key is taken. */
  function WriteVersion(db: Db, m: MemoryId, row: Record, to: Record, eventType: EventType, stamp: Stamp,
                        key: Option<string>): Option<Db> {
    if !MayEmit(db, to, eventType, stamp) then None
    else Some(Emit(db.(records := db.records[m := row]), to, eventType, stamp, key, None))
  }

  /** The statements of mutateRecordTx once its guard holds: row update, event, outbox row. */
  function StoreMutation(db: Db, m: MemoryId, row: Record, to: Record, eventType: EventType, stamp: Stamp): Result {
    var written := WriteVersion(db, m, row, to, eventType, stamp, None);
    if !ImportanceAllowed(to) || written == None then Refuse(db, ConstraintViolation)
    else Result(written.value, Mutated(to))
  }

  /** The guarded UPDATE and the two inserts of mutateRecordTx, for a record read earlier. */
  function WriteMutation(db: Db, input: MutationInput, read: Record, now: Time, stamp: Stamp): Result {
    var row, to := Load(db, input.tenantId, input.memoryId), Mutate(input.mutation, read, now);
    if row == None || row.value.version != input.expectedVersion then Refuse(db, VersionConflict)
    else StoreMutation(db, input.memoryId, SetMutationColumns(row.value, to), to, MutationEvent(input.mutation), stamp)
  }

  /** Records the response of a keyed call. */
  function RecordResponse(db: Db, scope: Scoped, requestHash: string, result: WriteResult): Result {
    Result(db.(idempotency := db.idempotency[scope := IdempotencyEntry(requestHash, result)]), Written(result))
  }

  /** The statements of Promote once its guard holds. */
  function StorePromotion(db: Db, input: PromoteInput, row: Record, to: Record, stamp: Stamp): Result {
    var scope, result := Scoped(input.tenantId, input.key), WriteResult(to.memoryId, to.version, true, to);
    var written := WriteVersion(db, input.memoryId, row, to, MemoryPromoted, stamp, None);
    if written == None || (input.key != "" && scope in db.idempotency) then Refuse(db, ConstraintViolation)
    else if input.key == "" then Result(written.value, Written(result))
    else RecordResponse(written.value, scope, HashOf(input), result)
  }

  /** The guarded UPDATE, the two inserts and the keyed idempotency insert of Promote. */
  function WritePromotion(db: Db, input: PromoteInput, read: Record, now: Time, stamp: Stamp): Result {
    var row, to := Load(db, input.tenantId, input.memoryId), PromoteRecord(read, input.sourceEventId, now);
    if row == None || row.value.version != read.version then Refuse(db, VersionConflict)
    else StorePromotion(db, input, SetPromotionColumns(row.value, to), to, stamp)
  }

  function HashOf(input: PromoteInput): string {
    PromoteHash.RequestHash(input.memoryId, input.sourceEventId, input.expectedVersion)
  }

  /** The four inserts of WriteRecord. */
  function WriteNew(db: Db, input: WriteInput, uuid: MemoryId, now: Time, stamp: Stamp): Result {
    var r := NewRecord(input, uuid, now);
    var scope, result := Scoped(input.tenantId, input.key), WriteResult(r.memoryId, r.version, true, r);
    var written := WriteVersion(db, r.memoryId, r, r, MemoryCreated, stamp, Some(input.key));
    if written == None || r.memoryId in db.records || !ImportanceAllowed(r) || scope in db.idempotency
    then Refuse(db, ConstraintViolation)
    else RecordResponse(written.value, scope, input.requestHash, result)
  }

  /** A lookup of the idempotency table: nothing recorded, a replay, or a conflict. */
  function Replay(db: Db, scope: Scoped, requestHash: string): Option<Reply> {
    if scope !in db.idempotency then None
    else if db.idempotency[scope].requestHash != requestHash then Some(Refused(IdempotencyConflict))
    else Some(Written(db.idempotency[scope].response))
  }

  function LoserInput(input: DedupeInput): MutationInput {
    MutationInput(input.tenantId, input.candidateId, input.candidateVersion, Delete)
  }

  /** The collapse event of the winner, once the loser's tombstone has gone through. */
  function FinishCollapse(db: Db, tombstoned: Result, winnerId: MemoryId, loserId: MemoryId, winner: Record,
                          collapse: Stamp): Result
  {
    if tombstoned.reply.Refused? then Refuse(db, tombstoned.reply.error)
    else if !MayEmit(tombstoned.db, winner, MemoryDedupeCollapsed, collapse) then Refuse(db, ConstraintViolation)
    else Result(Emit(tombstoned.db, winner, MemoryDedupeCollapsed, collapse, None, Some(loserId)),
                Resolved(winnerId, if winner.pinned then CollapsedByPin else MergedExisting))
  }

  /** All writes of the collision path: the loser's tombstone, then the collapse event of the winner. */
  function WriteCollapse(db: Db, input: DedupeInput, winnerId: MemoryId, loser: Record, now: Time,
                         winner: Record, stamp: Stamp, collapse: Stamp): Result
  {
    FinishCollapse(db, WriteMutation(db, LoserInput(input), loser, now, stamp), winnerId, input.candidateId, winner, collapse)
  }

  /** The bulk UPDATE of MarkAccess. */
  function Touch(db: Db, tenantId: TenantId, ids: set<MemoryId>, at: Time): Db {
    db.(records := map m | m in db.records ::
      if db.records[m].tenantId == tenantId && m in ids
      then db.records[m].(lastAccessAt := Some(at), hitCount := db.records[m].hitCount + 1)
      else db.records[m])
  }

  /** GetRecord: deleted and disabled records are reported as absent. */
  function GetRecord(db: Db, tenantId: TenantId, memoryId: MemoryId): Option<Record> {
    var r := Load(db, tenantId, memoryId);
    if r.Some? && !r.value.deleted && !r.value.disabled then r else None
  }

  // ------------------------------------------------------------------ machine

  type TxId = nat

  /** An open transaction: what it was asked and what it has read. */
  datatype Tx =
    | WriteOpen(write: WriteInput, startedAt: Time)
    | MutateOpen(mutate: MutationInput, startedAt: Time, read: Record)
    | PromoteLookedUp(promote: PromoteInput, startedAt: Time)
    | PromoteOpen(promote: PromoteInput, startedAt: Time, read: Record)
    | Collided(dedupe: DedupeInput, startedAt: Time, winnerId: MemoryId)
    | LoserRead(dedupe: DedupeInput, startedAt: Time, winnerId: MemoryId, read: Record)
    | CollapseOpen(dedupe: DedupeInput, startedAt: Time, winnerId: MemoryId, read: Record, at: Time, winner: Record)

  datatype State = State(now: Time, db: Db, txs: map<TxId, Tx>)

  const EMPTY_DB := Db(map[], map[], map[], map[], map[])
  const INITIAL := State(0, EMPTY_DB, map[])

  datatype Action =
    | Tick(to: Time)
    | Abort(tx: TxId)
    | WriteLookup(tx: TxId, write: WriteInput)
    | WriteCommit(tx: TxId, uuid: MemoryId, at: Time, eventId: EventId, outboxId: OutboxId)
    | MutateRead(tx: TxId, mutate: MutationInput)
    | MutateCommit(tx: TxId, at: Time, eventId: EventId, outboxId: OutboxId)
    | PromoteLookup(tx: TxId, promote: PromoteInput)
    | PromoteRead(tx: TxId)
    | PromoteCommit(tx: TxId, at: Time, eventId: EventId, outboxId: OutboxId)
    | DedupeClaim(tx: TxId, dedupe: DedupeInput)
    | DedupeReadLoser(tx: TxId)
    | DedupeReadWinner(tx: TxId, at: Time)
    | DedupeCommit(tx: TxId, eventId: EventId, outboxId: OutboxId, collapseEventId: EventId, collapseOutboxId: OutboxId)
    | MarkAccess(tenantId: TenantId, ids: seq<MemoryId>, at: Time)

  type History = Run<Action>

  predicate Enabled(s: State, a: Action) {
    match a
    case Tick(to) => s.now <= to
    case Abort(tx) => tx in s.txs
    case WriteLookup(tx, _) => tx !in s.txs
    case WriteCommit(tx, _, _, _, _) => tx in s.txs && s.txs[tx].WriteOpen?
    case MutateRead(tx, _) => tx !in s.txs
    case MutateCommit(tx, _, _, _) => tx in s.txs && s.txs[tx].MutateOpen?
    case PromoteLookup(tx, _) => tx !in s.txs
    case PromoteRead(tx) => tx in s.txs && s.txs[tx].PromoteLookedUp?
    case PromoteCommit(tx, _, _, _) => tx in s.txs && s.txs[tx].PromoteOpen?
    case DedupeClaim(tx, _) => tx !in s.txs
    case DedupeReadLoser(tx) => tx in s.txs && s.txs[tx].Collided?
    case DedupeReadWinner(tx, _) => tx in s.txs && s.txs[tx].LoserRead?
    case DedupeCommit(tx, _, _, _, _) => tx in s.txs && s.txs[tx].CollapseOpen?
    case MarkAccess(_, _, _) => true
  }

  /** A statement that leaves the transaction open, or ends it with a refusal. */
  datatype Progress = Continue(tx: Tx) | Stop(error: Error) | Answer(reply: Reply)

  function LookUpWrite(s: State, input: WriteInput): Progress {
    if input.tenantId == "" || input.key == "" || input.requestHash == "" then Stop(InvalidInput)
    else match Replay(s.db, Scoped(input.tenantId, input.key), input.requestHash)
      case Some(reply) => Answer(reply)
      case None => Continue(WriteOpen(input, s.now))
  }

  function ReadForMutation(s: State, input: MutationInput): Progress {
    if input.tenantId == "" || input.memoryId == "" then Stop(NotFound)
    else if input.expectedVersion <= 0 then Stop(VersionConflict)
    else match Load(s.db, input.tenantId, input.memoryId)
      case None => Stop(NotFound)
      case Some(r) =>
        if r.version != input.expectedVersion then Stop(VersionConflict) else Continue(MutateOpen(input, s.now, r))
  }

  function LookUpPromotion(s: State, input: PromoteInput): Progress {
    if input.tenantId == "" || input.memoryId == "" then Stop(NotFound)
    else if input.key == "" then Continue(PromoteLookedUp(input, s.now))
    else match Replay(s.db, Scoped(input.tenantId, input.key), HashOf(input))
      case Some(Written(r)) => Answer(Written(r.(created := false)))
      case Some(reply) => Answer(reply)
      case None => Continue(PromoteLookedUp(input, s.now))
  }

  function ReadForPromotion(s: State, t: Tx): Progress
    requires t.PromoteLookedUp?
  {
    match Load(s.db, t.promote.tenantId, t.promote.memoryId)
    case None => Stop(NotFound)
    case Some(r) =>
      if t.promote.expectedVersion <= 0 || r.version != t.promote.expectedVersion then Stop(VersionConflict)
      else Continue(PromoteOpen(t.promote, t.startedAt, r))
  }

  function ReadLoser(s: State, t: Tx): Progress
    requires t.Collided?
  {
    match Load(s.db, t.dedupe.tenantId, t.dedupe.candidateId)
    case None => Stop(NotFound)
    case Some(r) =>
      if r.version != t.dedupe.candidateVersion then Stop(VersionConflict)
      else Continue(LoserRead(t.dedupe, t.startedAt, t.winnerId, r))
  }

  /**
   * The loser's UPDATE, whose guard is tested here, and the read of the winner; a candidate
   * that is itself the winner is read back with the transaction's own tombstone on it.
   */
  function ReadWinner(s: State, t: Tx, at: Time): Progress
    requires t.LoserRead?
  {
    var loser := Load(s.db, t.dedupe.tenantId, t.dedupe.candidateId);
    if loser == None || loser.value.version != t.dedupe.candidateVersion then Stop(VersionConflict)
    else match Load(s.db, t.dedupe.tenantId, t.winnerId)
      case None => Stop(NotFound)
      case Some(row) =>
        var winner := if t.winnerId == t.dedupe.candidateId then SetMutationColumns(row, Mutate(Delete, t.read, at)) else row;
        Continue(CollapseOpen(t.dedupe, t.startedAt, t.winnerId, t.read, at, winner))
  }

  /** What one action does to the tables, and what its caller is told. */
  function Outcome(s: State, a: Action): Result
    requires Enabled(s, a)
  {
    match a
    case Tick(_) => Result(s.db, Done)
    case Abort(_) => Result(s.db, Done)
    case WriteLookup(_, input) => ReplyTo(s.db, LookUpWrite(s, input))
    case WriteCommit(tx, uuid, at, e, o) =>
      WriteNew(s.db, s.txs[tx].write, uuid, at, Stamp(e, o, s.txs[tx].startedAt))
    case MutateRead(_, input) => ReplyTo(s.db, ReadForMutation(s, input))
    case MutateCommit(tx, at, e, o) =>
      WriteMutation(s.db, s.txs[tx].mutate, s.txs[tx].read, at, Stamp(e, o, s.txs[tx].startedAt))
    case PromoteLookup(_, input) => ReplyTo(s.db, LookUpPromotion(s, input))
    case PromoteRead(tx) => ReplyTo(s.db, ReadForPromotion(s, s.txs[tx]))
    case PromoteCommit(tx, at, e, o) =>
      WritePromotion(s.db, s.txs[tx].promote, s.txs[tx].read, at, Stamp(e, o, s.txs[tx].startedAt))
    case DedupeClaim(_, input) => ClaimWinner(s.db, input)
    case DedupeReadLoser(tx) => ReplyTo(s.db, ReadLoser(s, s.txs[tx]))
    case DedupeReadWinner(tx, at) => ReplyTo(s.db, ReadWinner(s, s.txs[tx], at))
    case DedupeCommit(tx, e, o, ce, co) =>
      var t := s.txs[tx];
      WriteCollapse(s.db, t.dedupe, t.winnerId, t.read, t.at, t.winner,
                    Stamp(e, o, t.startedAt), Stamp(ce, co, t.startedAt))
    case MarkAccess(tenantId, ids, at) => Result(Touch(s.db, tenantId, (set m | m in ids), at), Done)
  }

  function ReplyTo(db: Db, p: Progress): Result {
    match p
    case Continue(_) => Result(db, StillOpen)
    case Stop(e) => Refuse(db, e)
    case Answer(reply) => Result(db, reply)
  }

  /** INSERT ... ON CONFLICT DO NOTHING: the first writer commits at once, a later one goes on as the loser. */
  function ClaimWinner(db: Db, input: DedupeInput): Result {
    var scope := Scoped(input.tenantId, input.dedupeKey);
    if scope in db.winners then Result(db, StillOpen)
    else Result(db.(winners := db.winners[scope := input.candidateId]), Resolved(input.candidateId, NoCollision))
  }

  function AdvanceTx(s: State, tx: TxId, p: Progress): map<TxId, Tx> {
    if p.Continue? then s.txs[tx := p.tx] else s.txs - {tx}
  }

  /** The transactions left open by an action. */
  function OpenAfter(s: State, a: Action): map<TxId, Tx>
    requires Enabled(s, a)
  {
    match a
    case Tick(_) => s.txs
    case MarkAccess(_, _, _) => s.txs
    case WriteLookup(tx, input) => AdvanceTx(s, tx, LookUpWrite(s, input))
    case MutateRead(tx, input) => AdvanceTx(s, tx, ReadForMutation(s, input))
    case PromoteLookup(tx, input) => AdvanceTx(s, tx, LookUpPromotion(s, input))
    case PromoteRead(tx) => AdvanceTx(s, tx, ReadForPromotion(s, s.txs[tx]))
    case DedupeClaim(tx, input) =>
      var scope := Scoped(input.tenantId, input.dedupeKey);
      if scope in s.db.winners then s.txs[tx := Collided(input, s.now, s.db.winners[scope])] else s.txs
    case DedupeReadLoser(tx) => AdvanceTx(s, tx, ReadLoser(s, s.txs[tx]))
    case DedupeReadWinner(tx, at) => AdvanceTx(s, tx, ReadWinner(s, s.txs[tx], at))
    case _ => s.txs - {a.tx}
  }

  function Apply(s: State, a: Action): State
    requires Enabled(s, a)
  {
    State(if a.Tick? then a.to else s.now, Outcome(s, a).db, OpenAfter(s, a))
  }

  function After(h: History): Option<State> {
    match h
    case Empty => Some(INITIAL)
    case Then(before, a) =>
      var s := After(before);
      if s.Some? && Enabled(s.value, a) then Some(Apply(s.value, a)) else None
  }
}
