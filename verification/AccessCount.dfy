/** MarkAccess counts every access once, whatever runs beside it. */
module AccessCount {
  import opened Common
  import opened Entities
  import opened StoreModel
  import opened StoreInvariants

  /** The history ends with the insert of record m. */
  ghost predicate Inserts(h: History, m: MemoryId) {
    && h.Then? && After(h).Some?
    && m !in After(h.before).value.db.records && m in After(h).value.db.records
  }

  predicate Names(a: Action, tenantId: TenantId, m: MemoryId) {
    a.MarkAccess? && a.tenantId == tenantId && m in a.ids
  }

  /** The MarkAccess calls of the tenant naming m after the first `from` actions; a call counts once. */
  function Accesses(h: History, from: nat, tenantId: TenantId, m: MemoryId): nat {
    match h
    case Empty => 0
    case Then(before, a) =>
      if h.Length() <= from then 0
      else Accesses(before, from, tenantId, m) + if Names(a, tenantId, m) then 1 else 0
  }

  /** The access time of the newest such call, if there is one. */
  function NewestAccess(h: History, from: nat, tenantId: TenantId, m: MemoryId): Option<Time> {
    match h
    case Empty => None
    case Then(before, a) =>
      if h.Length() <= from then None
      else if Names(a, tenantId, m) then Some(a.at)
      else NewestAccess(before, from, tenantId, m)
  }

  /** The row of m is there after, for the same tenant, with the same access columns. */
  ghost predicate KeepsAccess(db: Db, db': Db, m: MemoryId) {
    m in db.records ==>
      && m in db'.records && db'.records[m].tenantId == db.records[m].tenantId
      && db'.records[m].hitCount == db.records[m].hitCount
      && db'.records[m].lastAccessAt == db.records[m].lastAccessAt
  }

  lemma MutationOnAccess(db: Db, input: MutationInput, read: Record, now: Time, stamp: Stamp, m: MemoryId)
    ensures KeepsAccess(db, WriteMutation(db, input, read, now, stamp).db, m)
  {
  }

  lemma PromotionOnAccess(db: Db, input: PromoteInput, read: Record, now: Time, stamp: Stamp, m: MemoryId)
    ensures KeepsAccess(db, WritePromotion(db, input, read, now, stamp).db, m)
  {
  }

  lemma InsertOnAccess(db: Db, input: WriteInput, uuid: MemoryId, now: Time, stamp: Stamp, m: MemoryId)
    ensures KeepsAccess(db, WriteNew(db, input, uuid, now, stamp).db, m)
  {
  }

  lemma CollapseOnAccess(db: Db, t: Tx, stamp: Stamp, collapse: Stamp, m: MemoryId)
    requires t.CollapseOpen?
    ensures KeepsAccess(db, WriteCollapse(db, t.dedupe, t.winnerId, t.read, t.at, t.winner, stamp, collapse).db, m)
  {
    MutationOnAccess(db, LoserInput(t.dedupe), t.read, t.at, stamp, m);
  }

  lemma StepOnAccess(s: State, a: Action, m: MemoryId)
    requires Enabled(s, a) && m in s.db.records
    ensures m in Outcome(s, a).db.records
    ensures Outcome(s, a).db.records[m].tenantId == s.db.records[m].tenantId
    ensures Outcome(s, a).db.records[m].hitCount
         == s.db.records[m].hitCount + if Names(a, s.db.records[m].tenantId, m) then 1 else 0
    ensures Outcome(s, a).db.records[m].lastAccessAt
         == if Names(a, s.db.records[m].tenantId, m) then Some(a.at) else s.db.records[m].lastAccessAt
  {
    match a
    case WriteCommit(tx, uuid, at, e, o) =>
      InsertOnAccess(s.db, s.txs[tx].write, uuid, at, Stamp(e, o, s.txs[tx].startedAt), m);
    case MutateCommit(tx, at, e, o) =>
      MutationOnAccess(s.db, s.txs[tx].mutate, s.txs[tx].read, at, Stamp(e, o, s.txs[tx].startedAt), m);
    case PromoteCommit(tx, at, e, o) =>
      PromotionOnAccess(s.db, s.txs[tx].promote, s.txs[tx].read, at, Stamp(e, o, s.txs[tx].startedAt), m);
    case DedupeCommit(tx, e, o, ce, co) =>
      CollapseOnAccess(s.db, s.txs[tx], Stamp(e, o, s.txs[tx].startedAt), Stamp(ce, co, s.txs[tx].startedAt), m);
    case _ =>
  }

  /**
   * Exact counting. From any moment at which the record exists, its hit count has grown by
   * exactly the calls that name it under its tenant since, on every interleaving, and its
   * last access is that of the newest of them.
   */
  lemma {:induction false} AccessesAreCounted(earlier: History, later: History, m: MemoryId)
    requires Continues(later, earlier) && After(later).Some? && After(earlier).Some?
    requires m in After(earlier).value.db.records
    ensures m in After(later).value.db.records
    ensures var r, r' := After(earlier).value.db.records[m], After(later).value.db.records[m];
      && r'.tenantId == r.tenantId
      && r'.hitCount == r.hitCount + Accesses(later, earlier.Length(), r.tenantId, m)
      && r'.lastAccessAt == (if Accesses(later, earlier.Length(), r.tenantId, m) == 0 then r.lastAccessAt
                             else NewestAccess(later, earlier.Length(), r.tenantId, m))
  {
    ContinuesLength(later, earlier);
    if later != earlier {
      ContinuesLength(later.before, earlier);
      AccessesAreCounted(earlier, later.before, m);
      StepOnAccess(After(later.before).value, later.last, m);
    } else if later.Then? {
      assert Accesses(later, earlier.Length(), After(earlier).value.db.records[m].tenantId, m) == 0;
    }
  }

  /** Every record was inserted once, by a WriteRecord, with the access columns of its request. */
  lemma {:induction false} EveryRecordWasInserted(h: History, m: MemoryId) returns (insert: History)
    requires After(h).Some? && m in After(h).value.db.records
    ensures Continues(h, insert) && Inserts(insert, m) && insert.last.WriteCommit?
    ensures After(insert).value.db.records[m].hitCount
         == After(insert.before).value.txs[insert.last.tx].write.record.hitCount
    ensures After(insert).value.db.records[m].lastAccessAt
         == After(insert.before).value.txs[insert.last.tx].write.record.lastAccessAt
  {
    var s := After(h.before).value;
    if m in s.db.records {
      insert := EveryRecordWasInserted(h.before, m);
    } else {
      insert := h;
      OnlyInsertsAddRecords(s, h.last, m);
    }
  }

  lemma OnlyInsertsAddRecords(s: State, a: Action, m: MemoryId)
    requires Enabled(s, a) && m !in s.db.records && m in Outcome(s, a).db.records
    ensures a.WriteCommit? && Outcome(s, a).db.records[m].hitCount == s.txs[a.tx].write.record.hitCount
    ensures Outcome(s, a).db.records[m].lastAccessAt == s.txs[a.tx].write.record.lastAccessAt
  {
  }

  /** A record's hit count is the one it was inserted with plus the accesses counted since. */
  lemma HitCountIsExact(h: History, m: MemoryId) returns (insert: History)
    requires After(h).Some? && m in After(h).value.db.records
    ensures Continues(h, insert) && Inserts(insert, m) && insert.last.WriteCommit?
    ensures After(h).value.db.records[m].hitCount
         == After(insert.before).value.txs[insert.last.tx].write.record.hitCount
            + Accesses(h, insert.Length(), After(h).value.db.records[m].tenantId, m)
  {
    insert := EveryRecordWasInserted(h, m);
    AccessesAreCounted(insert, h, m);
  }

  /** And its last access is that of the newest of those calls, or the inserted one while there is none. */
  lemma LastAccessIsNewest(h: History, m: MemoryId) returns (insert: History)
    requires After(h).Some? && m in After(h).value.db.records
    ensures Continues(h, insert) && Inserts(insert, m) && insert.last.WriteCommit?
    ensures var tenantId := After(h).value.db.records[m].tenantId;
      After(h).value.db.records[m].lastAccessAt
      == if Accesses(h, insert.Length(), tenantId, m) == 0
         then After(insert.before).value.txs[insert.last.tx].write.record.lastAccessAt
         else NewestAccess(h, insert.Length(), tenantId, m)
  {
    insert := EveryRecordWasInserted(h, m);
    AccessesAreCounted(insert, h, m);
  }

  // ---------------------------------------------------------------- snapshots

  /** The record a transaction has read for the row it is going to update, if any. */
  function ReadOf(t: Tx): Option<Record> {
    match t
    case MutateOpen(_, _, r) => Some(r)
    case PromoteOpen(_, _, r) => Some(r)
    case LoserRead(_, _, _, r) => Some(r)
    case CollapseOpen(_, _, _, r, _, _) => Some(r)
    case _ => None
  }

  /** A statement either reads the row as it is, or keeps what the transaction has read. */
  lemma StepOnRead(s: State, a: Action, tx: TxId)
    requires StateSound(s) && Enabled(s, a) && tx in OpenAfter(s, a) && ReadOf(OpenAfter(s, a)[tx]).Some?
    ensures var r := ReadOf(OpenAfter(s, a)[tx]).value;
      || (tx in s.txs && ReadOf(s.txs[tx]) == Some(r))
      || (Outcome(s, a).db == s.db && r.memoryId in s.db.records && s.db.records[r.memoryId] == r)
  {
    assert forall m :: m in s.db.records ==> RecordSound(s.db, m);
  }

  /** Every read was the row at some moment of the run, access columns included. */
  lemma {:induction false} ReadWasRow(h: History, s: State, tx: TxId) returns (read: History)
    requires After(h) == Some(s) && tx in s.txs && ReadOf(s.txs[tx]).Some?
    ensures Continues(h, read) && After(read).Some?
    ensures var r := ReadOf(s.txs[tx]).value;
      r.memoryId in After(read).value.db.records && After(read).value.db.records[r.memoryId] == r
  {
    var t := After(h.before).value;
    Reachable(h.before, t);
    StepOnRead(t, h.last, tx);
    if tx in t.txs && ReadOf(t.txs[tx]) == ReadOf(s.txs[tx]) {
      read := ReadWasRow(h.before, t, tx);
    } else {
      read := h;
    }
  }

  /** The event a mutation or a promotion logs for a record. */
  ghost predicate Logged(s: State, a: Action, k: EventKey)
    requires Enabled(s, a)
  {
    (a.MutateCommit? || a.PromoteCommit?) && k !in s.db.events && k in Outcome(s, a).db.events
  }

  lemma LoggedShowsRead(s: State, a: Action, k: EventKey)
    requires StateSound(s) && Enabled(s, a) && Logged(s, a, k)
    ensures ReadOf(s.txs[a.tx]).Some? && k.memoryId == ReadOf(s.txs[a.tx]).value.memoryId
    ensures Outcome(s, a).db.events[k].snapshot.hitCount == ReadOf(s.txs[a.tx]).value.hitCount
  {
    assert TxSound(s.db, s.txs[a.tx]);
  }

  /**
   * How stale a logged hit count is. The event a mutation or a promotion logs lags behind the
   * row it updates by exactly the accesses since the call read the record.
   */
  lemma SnapshotLagsByAccesses(h: History, s: State, a: Action, k: EventKey) returns (read: History)
    requires After(h) == Some(s) && Enabled(s, a) && Logged(s, a, k)
    ensures Continues(h, read) && After(read).Some? && k.memoryId in s.db.records
    ensures k.memoryId in After(read).value.db.records
      && ReadOf(s.txs[a.tx]) == Some(After(read).value.db.records[k.memoryId])
    ensures k.memoryId in Outcome(s, a).db.records
      && Outcome(s, a).db.records[k.memoryId].hitCount
         == Outcome(s, a).db.events[k].snapshot.hitCount
            + Accesses(h, read.Length(), s.db.records[k.memoryId].tenantId, k.memoryId)
  {
    Reachable(h, s);
    LoggedShowsRead(s, a, k);
    read := ReadWasRow(h, s, a.tx);
    AccessesAreCounted(read, h, k.memoryId);
    StepOnAccess(s, a, k.memoryId);
  }
}
