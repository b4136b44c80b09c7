/**
 * ResolveDedupe as one call. Its collision path reads the winner without a lock, and what it
 * read may no longer be the winner when it commits. Here the call that runs alone reads the
 * winner itself; the interleaved one is that call exactly when its read was still current.
 */
module AtomicCalls {
  import opened Common
  import opened Entities
  import opened StoreModel
  import opened StoreInvariants
  import opened StoreHistory
  import opened Atomicity
  import Dedupe

  // ------------------------------------------------------------- calls run alone

  /** The winner as it is after the tombstone, and its collapse event. */
  function CollapseInto(db: Db, tombstoned: Result, tenantId: TenantId, winnerId: MemoryId, loserId: MemoryId,
                        collapse: Stamp): Result
  {
    if tombstoned.reply.Refused? then Refuse(db, tombstoned.reply.error)
    else match Load(tombstoned.db, tenantId, winnerId)
      case None => Refuse(db, NotFound)
      case Some(winner) => FinishCollapse(db, tombstoned, winnerId, loserId, winner, collapse)
  }

  /** ResolveDedupe from the claim to the commit, all on the same tables. */
  function AtomicResolve(db: Db, input: DedupeInput, at: Time, stamp: Stamp, collapse: Stamp): Result {
    var scope := Scoped(input.tenantId, input.dedupeKey);
    if scope !in db.winners then ClaimWinner(db, input)
    else match Load(db, input.tenantId, input.candidateId)
      case None => Refuse(db, NotFound)
      case Some(row) =>
        if row.version != input.candidateVersion then Refuse(db, VersionConflict)
        else CollapseInto(db, WriteMutation(db, LoserInput(input), row, at, stamp), input.tenantId, db.winners[scope],
                          input.candidateId, collapse)
  }

  /** A call of the store; nothing in it was read from the tables. */
  datatype Call =
    | Resolve(dedupe: DedupeInput, at: Time, stamp: Stamp, collapse: Stamp)
    | Other(op: Op)

  function Alone(db: Db, call: Call): Result {
    match call
    case Resolve(input, at, stamp, collapse) => AtomicResolve(db, input, at, stamp, collapse)
    case Other(op) => Atomic(db, op)
  }

  function CallOf(s: State, a: Action): Option<Call>
    requires Enabled(s, a)
  {
    match OpOf(s, a)
    case None => None
    case Some(Register(input)) => Some(Resolve(input, 0, NO_STAMP, NO_STAMP))
    case Some(Collapse(input, _, _, at, stamp, collapse)) => Some(Resolve(input, at, stamp, collapse))
    case Some(op) => Some(Other(op))
  }

  // ------------------------------------------------------ when a resolution succeeds

  /** The loser can be tombstoned and the winner collapsed into. */
  predicate MayCollapse(db: Db, input: DedupeInput, winnerId: MemoryId) {
    var loser, winner := Load(db, input.tenantId, input.candidateId), Load(db, input.tenantId, winnerId);
    && loser.Some? && loser.value.version == input.candidateVersion
    && winner.Some?
    && (winnerId == input.candidateId || EventKey(winnerId, winner.value.version, MemoryDedupeCollapsed) !in db.events)
  }

  lemma TombstoneGoesThrough(db: Db, input: DedupeInput, at: Time, stamp: Stamp)
    requires DbSound(db) && Load(db, input.tenantId, input.candidateId).Some?
    requires Load(db, input.tenantId, input.candidateId).value.version == input.candidateVersion
    requires stamp.outboxId !in db.outbox && forall k :: k in db.events ==> db.events[k].eventId != stamp.eventId
    ensures var row := Load(db, input.tenantId, input.candidateId).value;
      !WriteMutation(db, LoserInput(input), row, at, stamp).reply.Refused?
  {
    assert RecordSound(db, input.candidateId);
    var key := EventKey(input.candidateId, input.candidateVersion + 1, MemoryDeleted);
    assert EventSound(db, key);
    assert key !in db.events;
  }

  lemma CollapseGoesThroughIff(db: Db, input: DedupeInput, winnerId: MemoryId, at: Time, stamp: Stamp, collapse: Stamp)
    requires DbSound(db) && Dedupe.FreshIds(db, stamp, collapse)
    requires Load(db, input.tenantId, input.candidateId).Some?
    requires Load(db, input.tenantId, input.candidateId).value.version == input.candidateVersion
    ensures var row := Load(db, input.tenantId, input.candidateId).value;
      var r := CollapseInto(db, WriteMutation(db, LoserInput(input), row, at, stamp), input.tenantId, winnerId,
                            input.candidateId, collapse);
      r.reply.Resolved? <==> MayCollapse(db, input, winnerId)
  {
    TombstoneGoesThrough(db, input, at, stamp);
    LoadIsKnown(db, input.tenantId, input.candidateId);
    assert RecordSound(db, input.candidateId);
    assert EventSound(db, EventKey(input.candidateId, input.candidateVersion + 1, MemoryDedupeCollapsed));
    if Load(db, input.tenantId, winnerId).Some? {
      assert RecordSound(db, winnerId);
    }
  }

  /**
   * With fresh ids, a resolution succeeds if and only if the key is free, or the candidate
   * has the version the caller saw, the winner has a record of the tenant, and the winner is
   * the candidate or has not been collapsed into at its current version.
   */
  lemma ResolveSucceedsIff(db: Db, input: DedupeInput, at: Time, stamp: Stamp, collapse: Stamp)
    requires DbSound(db) && Dedupe.FreshIds(db, stamp, collapse)
    ensures var scope := Scoped(input.tenantId, input.dedupeKey);
      AtomicResolve(db, input, at, stamp, collapse).reply.Resolved?
      <==> scope !in db.winners || MayCollapse(db, input, db.winners[scope])
  {
    var scope, loser := Scoped(input.tenantId, input.dedupeKey), Load(db, input.tenantId, input.candidateId);
    if scope in db.winners && loser.Some? && loser.value.version == input.candidateVersion {
      CollapseGoesThroughIff(db, input, db.winners[scope], at, stamp, collapse);
    }
  }

  // ---------------------------------------------------------------- stale winners

  /** A collapse commits although the winner has moved on since it was read. */
  predicate StaleCollapse(s: State, a: Action)
    requires Enabled(s, a)
  {
    a.DedupeCommit? && Outcome(s, a).reply.Resolved?
    && !WinnerCurrent(s.db, s.txs[a.tx])
  }

  /** The winner is the candidate itself, or still has the version the transaction read. */
  predicate WinnerCurrent(db: Db, t: Tx)
    requires t.CollapseOpen?
  {
    t.winnerId == t.dedupe.candidateId || (t.winnerId in db.records && db.records[t.winnerId].version == t.winner.version)
  }

  /** After the tombstone the winner loads; it is what was read exactly when it is current. */
  lemma WinnerSeen(db: Db, t: Tx, stamp: Stamp)
    requires DbSound(db) && t.CollapseOpen? && TxSound(db, t)
    requires !WriteMutation(db, LoserInput(t.dedupe), t.read, t.at, stamp).reply.Refused?
    ensures var seen := Load(WriteMutation(db, LoserInput(t.dedupe), t.read, t.at, stamp).db, t.dedupe.tenantId, t.winnerId);
      && seen.Some? && seen.value.memoryId == t.winner.memoryId
      && if WinnerCurrent(db, t) then SameVersioned(t.winner, seen.value) else t.winner.version != seen.value.version
  {
    MutationIsAStep(db, LoserInput(t.dedupe), t.read, t.at, stamp);
    if t.winnerId != t.dedupe.candidateId {
      assert RecordSound(db, t.winnerId);
      if WinnerCurrent(db, t) {
        KnownNewestIsRow(db, t.winner);
      }
    }
  }

  /** The tombstone written from the row is the one written from the read. */
  lemma TombstonesAgree(db: Db, t: Tx, stamp: Stamp)
    requires DbSound(db) && t.CollapseOpen? && TxSound(db, t)
    requires !WriteMutation(db, LoserInput(t.dedupe), t.read, t.at, stamp).reply.Refused?
    ensures var row := Load(db, t.dedupe.tenantId, t.dedupe.candidateId);
      && row.Some? && row.value.version == t.dedupe.candidateVersion
      && SameOutcome(WriteMutation(db, LoserInput(t.dedupe), t.read, t.at, stamp),
                     WriteMutation(db, LoserInput(t.dedupe), row.value, t.at, stamp))
  {
    ReadIsRow(db, t.read, t.dedupe.tenantId, t.dedupe.candidateId, t.dedupe.candidateVersion);
    var row := Load(db, t.dedupe.tenantId, t.dedupe.candidateId).value;
    MutationAgrees(db, db, LoserInput(t.dedupe), t.read, row, t.at, stamp);
  }

  /** A collapse of one version of the winner is not a collapse of another. */
  lemma SnapshotsDiffer(db: Db, r: Result, r0: Result, winnerId: MemoryId, loserId: MemoryId, winner: Record, winner0: Record,
                        collapse: Stamp)
    requires !r.reply.Refused? && SameOutcome(r, r0)
    requires winner.memoryId == winner0.memoryId && winner.version != winner0.version
    requires !FinishCollapse(db, r, winnerId, loserId, winner, collapse).reply.Refused?
    ensures var key := EventKey(winner.memoryId, winner.version, MemoryDedupeCollapsed);
      key in FinishCollapse(db, r, winnerId, loserId, winner, collapse).db.events
      && (key in FinishCollapse(db, r0, winnerId, loserId, winner0, collapse).db.events ==> key in db.events)
  {
    var key := EventKey(winner.memoryId, winner.version, MemoryDedupeCollapsed);
    assert key !in BlurEvents(r.db.events) && key !in BlurEvents(r0.db.events);
  }

  lemma KeysDiffer(db: Db, db0: Db, key: EventKey)
    requires key in db.events && key !in db0.events
    ensures !Agrees(db, db0)
  {
    assert key in BlurEvents(db.events) && key !in BlurEvents(db0.events);
  }

  lemma ResolveIsFinish(db: Db, t: Tx, stamp: Stamp, collapse: Stamp, row: Record, tombstoned: Result, winner: Record)
    requires t.CollapseOpen? && TxSound(db, t)
    requires Load(db, t.dedupe.tenantId, t.dedupe.candidateId) == Some(row) && row.version == t.dedupe.candidateVersion
    requires tombstoned == WriteMutation(db, LoserInput(t.dedupe), row, t.at, stamp) && !tombstoned.reply.Refused?
    requires Load(tombstoned.db, t.dedupe.tenantId, t.winnerId) == Some(winner)
    ensures AtomicResolve(db, t.dedupe, t.at, stamp, collapse)
         == FinishCollapse(db, tombstoned, t.winnerId, t.dedupe.candidateId, winner, collapse)
  {
  }

  /** What the call run alone finishes with: an agreeing tombstone, and the winner it sees. */
  lemma AloneFinishes(db: Db, t: Tx, stamp: Stamp, collapse: Stamp) returns (tombstoned: Result, seen: Record)
    requires DbSound(db) && t.CollapseOpen? && TxSound(db, t)
    requires !WriteMutation(db, LoserInput(t.dedupe), t.read, t.at, stamp).reply.Refused?
    ensures SameOutcome(WriteMutation(db, LoserInput(t.dedupe), t.read, t.at, stamp), tombstoned)
    ensures AtomicResolve(db, t.dedupe, t.at, stamp, collapse)
         == FinishCollapse(db, tombstoned, t.winnerId, t.dedupe.candidateId, seen, collapse)
    ensures seen.memoryId == t.winner.memoryId
    ensures if WinnerCurrent(db, t) then SameVersioned(t.winner, seen) else t.winner.version != seen.version
  {
    var tomb := WriteMutation(db, LoserInput(t.dedupe), t.read, t.at, stamp);
    TombstonesAgree(db, t, stamp);
    WinnerSeen(db, t, stamp);
    var row := Load(db, t.dedupe.tenantId, t.dedupe.candidateId).value;
    tombstoned := WriteMutation(db, LoserInput(t.dedupe), row, t.at, stamp);
    assert tombstoned.db.records == tomb.db.records;
    seen := Load(tombstoned.db, t.dedupe.tenantId, t.winnerId).value;
    ResolveIsFinish(db, t, stamp, collapse, row, tombstoned, seen);
  }

  function CollapseKey(t: Tx): EventKey
    requires t.CollapseOpen?
  {
    EventKey(t.winnerId, t.winner.version, MemoryDedupeCollapsed)
  }

  /** A stale collapse logs an event that the call run alone does not log. */
  lemma StaleEventIsExtra(db: Db, t: Tx, stamp: Stamp, collapse: Stamp)
    requires DbSound(db) && t.CollapseOpen? && TxSound(db, t) && !WinnerCurrent(db, t)
    requires !WriteCollapse(db, t.dedupe, t.winnerId, t.read, t.at, t.winner, stamp, collapse).reply.Refused?
    ensures CollapseKey(t) in WriteCollapse(db, t.dedupe, t.winnerId, t.read, t.at, t.winner, stamp, collapse).db.events
    ensures CollapseKey(t) !in AtomicResolve(db, t.dedupe, t.at, stamp, collapse).db.events
  {
    var tomb := WriteMutation(db, LoserInput(t.dedupe), t.read, t.at, stamp);
    var tomb0, seen := AloneFinishes(db, t, stamp, collapse);
    SnapshotsDiffer(db, tomb, tomb0, t.winnerId, t.dedupe.candidateId, t.winner, seen, collapse);
    MutationIsAStep(db, LoserInput(t.dedupe), t.read, t.at, stamp);
  }

  /** A collapse that commits is the call run alone at that moment if and only if its winner was still current. */
  lemma CollapseIsAloneIff(db: Db, t: Tx, stamp: Stamp, collapse: Stamp)
    requires DbSound(db) && t.CollapseOpen? && TxSound(db, t)
    requires !WriteCollapse(db, t.dedupe, t.winnerId, t.read, t.at, t.winner, stamp, collapse).reply.Refused?
    ensures SameOutcome(WriteCollapse(db, t.dedupe, t.winnerId, t.read, t.at, t.winner, stamp, collapse),
                        AtomicResolve(db, t.dedupe, t.at, stamp, collapse))
      <==> WinnerCurrent(db, t)
  {
    if WinnerCurrent(db, t) {
      var tomb := WriteMutation(db, LoserInput(t.dedupe), t.read, t.at, stamp);
      var tomb0, seen := AloneFinishes(db, t, stamp, collapse);
      FinishAgrees(db, db, tomb, tomb0, t.winnerId, t.dedupe.candidateId, t.winner, seen, collapse);
    } else {
      StaleEventIsExtra(db, t, stamp, collapse);
      KeysDiffer(WriteCollapse(db, t.dedupe, t.winnerId, t.read, t.at, t.winner, stamp, collapse).db,
                 AtomicResolve(db, t.dedupe, t.at, stamp, collapse).db, CollapseKey(t));
    }
  }

  lemma CollapseCommitIsAloneIff(s: State, tx: TxId, e: EventId, o: OutboxId, ce: EventId, co: OutboxId)
    requires StateSound(s) && tx in s.txs && s.txs[tx].CollapseOpen?
    requires !Outcome(s, DedupeCommit(tx, e, o, ce, co)).reply.Refused?
    ensures var t := s.txs[tx];
      SameOutcome(Outcome(s, DedupeCommit(tx, e, o, ce, co)),
                  AtomicResolve(s.db, t.dedupe, t.at, Stamp(e, o, t.startedAt), Stamp(ce, co, t.startedAt)))
      <==> WinnerCurrent(s.db, t)
  {
    assert TxSound(s.db, s.txs[tx]);
    CollapseIsAloneIff(s.db, s.txs[tx], Stamp(e, o, s.txs[tx].startedAt), Stamp(ce, co, s.txs[tx].startedAt));
  }

  lemma CallsButResolve(s: State, a: Action)
    requires Enabled(s, a) && OpOf(s, a).Some? && !a.DedupeClaim? && !a.DedupeCommit?
    ensures CallOf(s, a).Some? && Alone(s.db, CallOf(s, a).value) == Atomic(s.db, OpOf(s, a).value)
  {
  }

  lemma CallOfCommit(s: State, tx: TxId, e: EventId, o: OutboxId, ce: EventId, co: OutboxId)
    requires tx in s.txs && s.txs[tx].CollapseOpen?
    ensures var t := s.txs[tx];
      CallOf(s, DedupeCommit(tx, e, o, ce, co))
      == Some(Resolve(t.dedupe, t.at, Stamp(e, o, t.startedAt), Stamp(ce, co, t.startedAt)))
  {
  }

  /** An accepted call is, at the moment it completes, the call run alone, stale collapses excepted. */
  lemma AcceptedIsAloneIff(s: State, a: Action)
    requires StateSound(s) && Enabled(s, a) && Accepted(s, a)
    ensures CallOf(s, a).Some?
    ensures SameOutcome(Outcome(s, a), Alone(s.db, CallOf(s, a).value)) <==> !StaleCollapse(s, a)
  {
    if a.DedupeCommit? {
      CallOfCommit(s, a.tx, a.eventId, a.outboxId, a.collapseEventId, a.collapseOutboxId);
      CollapseCommitIsAloneIff(s, a.tx, a.eventId, a.outboxId, a.collapseEventId, a.collapseOutboxId);
    } else if !a.DedupeClaim? {
      CallsButResolve(s, a);
      AcceptedIsAtomic(s, a);
    }
  }

  // ---------------------------------------------------------------- whole runs

  /** The tables after the accepted calls of a history have run alone, in the order they completed. */
  function CallRun(h: History): Db {
    match h
    case Empty => EMPTY_DB
    case Then(before, a) =>
      var s := After(before);
      if s.Some? && Enabled(s.value, a) && CallOf(s.value, a).Some?
         && Outcome(s.value, a).reply != StillOpen && !Outcome(s.value, a).reply.Refused?
      then Alone(CallRun(before), CallOf(s.value, a).value).db
      else CallRun(before)
  }

  /** No collapse of the history committed after its winner had moved on. */
  predicate NoStaleCollapse(h: History) {
    match h
    case Empty => true
    case Then(before, a) =>
      var s := After(before);
      NoStaleCollapse(before) && (s.Some? && Enabled(s.value, a) ==> !StaleCollapse(s.value, a))
  }

  lemma CollapseIntoAgrees(db: Db, db0: Db, r: Result, r0: Result, tenantId: TenantId, winnerId: MemoryId, loserId: MemoryId,
                           collapse: Stamp)
    requires Agrees(db, db0) && SameOutcome(r, r0)
    ensures SameOutcome(CollapseInto(db, r, tenantId, winnerId, loserId, collapse),
                        CollapseInto(db0, r0, tenantId, winnerId, loserId, collapse))
  {
    var winner := Load(r.db, tenantId, winnerId);
    assert r.db.records == r0.db.records;
    if winner.Some? {
      FinishAgrees(db, db0, r, r0, winnerId, loserId, winner.value, winner.value, collapse);
    }
  }

  lemma ResolveAgrees(db: Db, db0: Db, input: DedupeInput, at: Time, stamp: Stamp, collapse: Stamp)
    requires Agrees(db, db0)
    ensures SameOutcome(AtomicResolve(db, input, at, stamp, collapse), AtomicResolve(db0, input, at, stamp, collapse))
  {
    var scope, row := Scoped(input.tenantId, input.dedupeKey), Load(db, input.tenantId, input.candidateId);
    if scope in db.winners && row.Some? {
      MutationAgrees(db, db0, LoserInput(input), row.value, row.value, at, stamp);
      CollapseIntoAgrees(db, db0, WriteMutation(db, LoserInput(input), row.value, at, stamp),
                         WriteMutation(db0, LoserInput(input), row.value, at, stamp),
                         input.tenantId, db.winners[scope], input.candidateId, collapse);
    }
  }

  lemma AloneAgrees(db: Db, db0: Db, call: Call)
    requires Agrees(db, db0)
    ensures SameOutcome(Alone(db, call), Alone(db0, call))
  {
    match call
    case Resolve(input, at, stamp, collapse) => ResolveAgrees(db, db0, input, at, stamp, collapse);
    case Other(op) => AtomicAgrees(db, db0, op);
  }

  lemma {:induction false} CurrentRunsAgree(h: History, s: State)
    requires After(h) == Some(s) && NoStaleCollapse(h)
    ensures Agrees(s.db, CallRun(h))
  {
    if h.Then? {
      var t := After(h.before).value;
      CurrentRunsAgree(h.before, t);
      Reachable(h.before, t);
      if Accepted(t, h.last) {
        AcceptedIsAloneIff(t, h.last);
        AloneAgrees(t.db, CallRun(h.before), CallOf(t, h.last).value);
      } else {
        OthersChangeNothing(t, h.last);
      }
    }
  }

  /** The caller of an accepted call gets the answer of the call run alone. */
  lemma CurrentAnswersAgree(h: History, s: State, a: Action)
    requires After(h) == Some(s) && Enabled(s, a) && Accepted(s, a) && NoStaleCollapse(Then(h, a))
    ensures CallOf(s, a).Some? && SameReply(Outcome(s, a).reply, Alone(CallRun(h), CallOf(s, a).value).reply)
  {
    Reachable(h, s);
    CurrentRunsAgree(h, s);
    AcceptedIsAloneIff(s, a);
    AloneAgrees(s.db, CallRun(h), CallOf(s, a).value);
  }

  // ------------------------------------------------------- stale runs stray for good

  /** The tables hold a collapse event that the other run does not have; both register the same winners. */
  predicate Strayed(db: Db, db0: Db, key: EventKey, id: EventId) {
    && key.eventType == MemoryDedupeCollapsed
    && key in db.events && db.events[key].eventId == id
    && !(key in db0.events && db0.events[key].eventId == id)
    && db.winners == db0.winners
  }

  lemma StrayedDisagrees(db: Db, db0: Db, key: EventKey, id: EventId)
    requires Strayed(db, db0, key, id)
    ensures !Agrees(db, db0)
  {
    assert key in BlurEvents(db.events) && BlurEvents(db.events)[key].eventId == id;
    if key in db0.events {
      assert BlurEvents(db0.events)[key].eventId == db0.events[key].eventId;
    } else {
      assert key !in BlurEvents(db0.events);
    }
  }

  /** A collapse event in db' that was not in db has this id. */
  predicate AddsCollapse(db: Db, db': Db, key: EventKey, id: EventId) {
    key.eventType == MemoryDedupeCollapsed && key in db'.events ==>
      (key in db.events && db.events[key] == db'.events[key]) || db'.events[key].eventId == id
  }

  lemma ResolveOnCollapses(db: Db, input: DedupeInput, at: Time, stamp: Stamp, collapse: Stamp, key: EventKey)
    ensures var db' := AtomicResolve(db, input, at, stamp, collapse).db;
      && AddsCollapse(db, db', key, collapse.eventId)
      && (Scoped(input.tenantId, input.dedupeKey) !in db.winners ==> db'.events == db.events)
  {
  }

  lemma OthersLogNoCollapse(db: Db, op: Op, key: EventKey)
    requires !op.Collapse? && key.eventType == MemoryDedupeCollapsed
    ensures var db' := Atomic(db, op).db;
      (key in db'.events <==> key in db.events) && (key in db.events ==> db'.events[key] == db.events[key])
  {
    match op
    case Write(_, _, _, _) =>
    case Change(_, _, _) =>
    case Promotion(_, _, _) =>
    case Access(_, _, _) =>
    case Register(_) =>
  }

  /** Only a resolution that collides logs a collapse, under the id drawn for it. */
  lemma AloneOnCollapses(db: Db, call: Call, key: EventKey)
    requires (call.Other? ==> !call.op.Collapse?) && key.eventType == MemoryDedupeCollapsed
    ensures var db' := Alone(db, call).db;
      if call.Resolve? then
        AddsCollapse(db, db', key, call.collapse.eventId)
        && (Scoped(call.dedupe.tenantId, call.dedupe.dedupeKey) !in db.winners ==> db'.events == db.events)
      else (key in db'.events <==> key in db.events) && (key in db.events ==> db'.events[key] == db.events[key])
  {
    match call
    case Resolve(input, at, stamp, collapse) => ResolveOnCollapses(db, input, at, stamp, collapse, key);
    case Other(op) => OthersLogNoCollapse(db, op, key);
  }

  /** A call run alone registers a winner exactly when it resolves a free key. */
  lemma AloneOnWinners(db: Db, call: Call)
    requires call.Other? ==> !call.op.Collapse? && !call.op.Register?
    ensures Alone(db, call).db.winners
      == if call.Resolve? && Scoped(call.dedupe.tenantId, call.dedupe.dedupeKey) !in db.winners then
           db.winners[Scoped(call.dedupe.tenantId, call.dedupe.dedupeKey) := call.dedupe.candidateId]
         else db.winners
  {
  }

  lemma CollapseIdIsNew(db: Db, t: Tx, stamp: Stamp, collapse: Stamp)
    requires t.CollapseOpen?
    requires !WriteCollapse(db, t.dedupe, t.winnerId, t.read, t.at, t.winner, stamp, collapse).reply.Refused?
    ensures forall k :: k in db.events ==> db.events[k].eventId != collapse.eventId
    ensures WriteCollapse(db, t.dedupe, t.winnerId, t.read, t.at, t.winner, stamp, collapse).db.winners == db.winners
  {
    var mid := WriteMutation(db, LoserInput(t.dedupe), t.read, t.at, stamp).db;
    assert forall k :: k in db.events ==> k in mid.events && mid.events[k] == db.events[k];
  }

  /** The call of an accepted action claims a free key, or collides under an id never used, or does not resolve. */
  predicate CallFits(s: State, a: Action, call: Call)
    requires Enabled(s, a)
  {
    match call
    case Other(op) => !op.Collapse? && !op.Register? && Outcome(s, a).db.winners == s.db.winners
    case Resolve(input, _, _, collapse) =>
      var scope := Scoped(input.tenantId, input.dedupeKey);
      if scope in s.db.winners then
        Outcome(s, a).db.winners == s.db.winners && forall k :: k in s.db.events ==> s.db.events[k].eventId != collapse.eventId
      else Outcome(s, a).db.winners == s.db.winners[scope := input.candidateId]
  }

  lemma CommitFits(s: State, tx: TxId, e: EventId, o: OutboxId, ce: EventId, co: OutboxId)
    requires StateSound(s) && tx in s.txs && s.txs[tx].CollapseOpen?
    requires !Outcome(s, DedupeCommit(tx, e, o, ce, co)).reply.Refused?
    ensures var a := DedupeCommit(tx, e, o, ce, co); CallOf(s, a).Some? && CallFits(s, a, CallOf(s, a).value)
  {
    var t := s.txs[tx];
    assert TxSound(s.db, t);
    CallOfCommit(s, tx, e, o, ce, co);
    CollapseIdIsNew(s.db, t, Stamp(e, o, t.startedAt), Stamp(ce, co, t.startedAt));
  }

  lemma AcceptedCallFits(s: State, a: Action)
    requires StateSound(s) && Enabled(s, a) && Accepted(s, a)
    ensures CallOf(s, a).Some? && CallFits(s, a, CallOf(s, a).value)
  {
    if a.DedupeCommit? {
      CommitFits(s, a.tx, a.eventId, a.outboxId, a.collapseEventId, a.collapseOutboxId);
    }
  }

  lemma StrayStays(s: State, a: Action, db0: Db, key: EventKey, id: EventId)
    requires StateSound(s) && Enabled(s, a) && Accepted(s, a) && Strayed(s.db, db0, key, id)
    ensures CallOf(s, a).Some? && Strayed(Outcome(s, a).db, Alone(db0, CallOf(s, a).value).db, key, id)
  {
    StepGrows(s, a);
    AcceptedCallFits(s, a);
    AloneOnCollapses(db0, CallOf(s, a).value, key);
    AloneOnWinners(db0, CallOf(s, a).value);
  }

  lemma StaleCollapseStrays(h: History, s: State, a: Action)
    requires After(h) == Some(s) && Enabled(s, a) && StaleCollapse(s, a) && NoStaleCollapse(h)
    ensures Accepted(s, a) && CallOf(s, a).Some?
    ensures Strayed(Outcome(s, a).db, Alone(CallRun(h), CallOf(s, a).value).db, CollapseKey(s.txs[a.tx]), a.collapseEventId)
  {
    Reachable(h, s);
    CurrentRunsAgree(h, s);
    AcceptedCallFits(s, a);
    AloneAgrees(s.db, CallRun(h), CallOf(s, a).value);
    AloneOnWinners(CallRun(h), CallOf(s, a).value);
    StaleCommitIsExtra(s, a.tx, a.eventId, a.outboxId, a.collapseEventId, a.collapseOutboxId);
    var db1, db0 := Alone(s.db, CallOf(s, a).value).db, Alone(CallRun(h), CallOf(s, a).value).db;
    assert CollapseKey(s.txs[a.tx]) !in BlurEvents(db1.events);
    assert CollapseKey(s.txs[a.tx]) !in BlurEvents(db0.events);
  }

  lemma StaleCommitIsExtra(s: State, tx: TxId, e: EventId, o: OutboxId, ce: EventId, co: OutboxId)
    requires StateSound(s) && tx in s.txs && s.txs[tx].CollapseOpen? && StaleCollapse(s, DedupeCommit(tx, e, o, ce, co))
    ensures var a, key := DedupeCommit(tx, e, o, ce, co), CollapseKey(s.txs[tx]);
      && key in Outcome(s, a).db.events && Outcome(s, a).db.events[key].eventId == ce
      && CallOf(s, a).Some? && key !in Alone(s.db, CallOf(s, a).value).db.events
  {
    var t := s.txs[tx];
    assert TxSound(s.db, t);
    CallOfCommit(s, tx, e, o, ce, co);
    StaleEventIsExtra(s.db, t, Stamp(e, o, t.startedAt), Stamp(ce, co, t.startedAt));
  }

  lemma {:induction false} StaleRunsStray(h: History, s: State) returns (key: EventKey, id: EventId)
    requires After(h) == Some(s) && !NoStaleCollapse(h)
    ensures Strayed(s.db, CallRun(h), key, id)
  {
    var t := After(h.before).value;
    Reachable(h.before, t);
    if NoStaleCollapse(h.before) {
      StaleCollapseStrays(h.before, t, h.last);
      key, id := CollapseKey(t.txs[h.last.tx]), h.last.collapseEventId;
    } else {
      key, id := StaleRunsStray(h.before, t);
      if Accepted(t, h.last) {
        StrayStays(t, h.last, CallRun(h.before), key, id);
      } else {
        OthersChangeNothing(t, h.last);
      }
    }
  }

  /**
   * Refinement, without anything handed to the calls. A run of the interleaved transactions
   * leaves the tables that its accepted calls leave when each runs alone, in the order they
   * completed, if and only if no collapse committed after its winner had moved on.
   */
  lemma InterleavingRefinesCallsIff(h: History, s: State)
    requires After(h) == Some(s)
    ensures Agrees(s.db, CallRun(h)) <==> NoStaleCollapse(h)
  {
    if NoStaleCollapse(h) {
      CurrentRunsAgree(h, s);
    } else {
      var key, id := StaleRunsStray(h, s);
      StrayedDisagrees(s.db, CallRun(h), key, id);
    }
  }

  // ---------------------------------------------------------------- refusals

  /** A resolution refused at the loser's read is refused as the call run alone would be then. */
  lemma RefusedLoserReadIsAlone(s: State, tx: TxId, at: Time, stamp: Stamp, collapse: Stamp)
    requires StateSound(s) && tx in s.txs && s.txs[tx].Collided? && Outcome(s, DedupeReadLoser(tx)).reply.Refused?
    ensures AtomicResolve(s.db, s.txs[tx].dedupe, at, stamp, collapse) == Outcome(s, DedupeReadLoser(tx))
  {
    assert TxSound(s.db, s.txs[tx]);
  }

  /** So is one refused at the loser's update or the winner's read, whatever fresh ids it would have drawn. */
  lemma RefusedWinnerReadIsAlone(s: State, tx: TxId, at: Time, stamp: Stamp, collapse: Stamp)
    requires StateSound(s) && tx in s.txs && s.txs[tx].LoserRead? && Outcome(s, DedupeReadWinner(tx, at)).reply.Refused?
    requires Dedupe.FreshIds(s.db, stamp, collapse)
    ensures AtomicResolve(s.db, s.txs[tx].dedupe, at, stamp, collapse) == Outcome(s, DedupeReadWinner(tx, at))
  {
    var t := s.txs[tx];
    assert TxSound(s.db, t);
    var row := Load(s.db, t.dedupe.tenantId, t.dedupe.candidateId).value;
    if row.version == t.dedupe.candidateVersion {
      TombstoneGoesThrough(s.db, t.dedupe, at, stamp);
    }
  }

  /** The reply of a collapse with fresh ids whose loser has not moved on. */
  lemma CollapseReply(db: Db, t: Tx, stamp: Stamp, collapse: Stamp)
    requires DbSound(db) && t.CollapseOpen? && TxSound(db, t) && Dedupe.FreshIds(db, stamp, collapse)
    requires db.records[t.dedupe.candidateId].version == t.dedupe.candidateVersion
    ensures var reply := WriteCollapse(db, t.dedupe, t.winnerId, t.read, t.at, t.winner, stamp, collapse).reply;
      if CollapseKey(t) in db.events then reply == Refused(ConstraintViolation) else !reply.Refused?
    ensures t.winnerId == t.dedupe.candidateId ==> CollapseKey(t) !in db.events
  {
    Dedupe.TombstoneSucceedsIff(db, t, stamp);
    MutationIsAStep(db, LoserInput(t.dedupe), t.read, t.at, stamp);
    if t.winnerId == t.dedupe.candidateId {
      assert EventSound(db, CollapseKey(t));
    }
  }

  lemma LoadsRegistered(db: Db, t: Tx)
    requires LogSound(db) && t.CollapseOpen? && TxSound(db, t)
    ensures Scoped(t.dedupe.tenantId, t.dedupe.dedupeKey) in db.winners
      && db.winners[Scoped(t.dedupe.tenantId, t.dedupe.dedupeKey)] == t.winnerId
    ensures t.winnerId in db.records && t.dedupe.candidateId in db.records
    ensures Load(db, t.dedupe.tenantId, t.winnerId) == Some(db.records[t.winnerId])
    ensures Load(db, t.dedupe.tenantId, t.dedupe.candidateId) == Some(db.records[t.dedupe.candidateId])
  {
  }

  lemma TombstonedReply(db: Db, input: DedupeInput, row: Record, at: Time, stamp: Stamp, winnerId: MemoryId, collapse: Stamp)
    requires !WriteMutation(db, LoserInput(input), row, at, stamp).reply.Refused? && Load(db, input.tenantId, winnerId).Some?
    requires row.tenantId == input.tenantId
    ensures var tombstoned := WriteMutation(db, LoserInput(input), row, at, stamp);
      var reply := CollapseInto(db, tombstoned, input.tenantId, winnerId, input.candidateId, collapse).reply;
      reply.Resolved? || reply == Refused(ConstraintViolation)
  {
    assert Load(WriteMutation(db, LoserInput(input), row, at, stamp).db, input.tenantId, winnerId).Some?;
  }

  lemma AloneReply(db: Db, t: Tx, stamp: Stamp, collapse: Stamp)
    requires DbSound(db) && t.CollapseOpen? && TxSound(db, t) && Dedupe.FreshIds(db, stamp, collapse)
    requires db.records[t.dedupe.candidateId].version == t.dedupe.candidateVersion
    ensures t.winnerId in db.records
    ensures var reply := AtomicResolve(db, t.dedupe, t.at, stamp, collapse).reply;
      if t.winnerId != t.dedupe.candidateId
         && EventKey(t.winnerId, db.records[t.winnerId].version, MemoryDedupeCollapsed) in db.events
      then reply == Refused(ConstraintViolation) else !reply.Refused?
  {
    LoadsRegistered(db, t);
    ResolveSucceedsIff(db, t.dedupe, t.at, stamp, collapse);
    var row := db.records[t.dedupe.candidateId];
    TombstoneGoesThrough(db, t.dedupe, t.at, stamp);
    TombstonedReply(db, t.dedupe, row, t.at, stamp, t.winnerId, collapse);
  }

  /**
   * A collapse refused at its commit is refused as the call run alone would be then if and
   * only if its loser has moved on, or the winner has been collapsed into at its current
   * version too; otherwise the call run alone would have succeeded.
   */
  lemma RefusedCollapseIsAloneIff(db: Db, t: Tx, stamp: Stamp, collapse: Stamp)
    requires DbSound(db) && t.CollapseOpen? && TxSound(db, t) && Dedupe.FreshIds(db, stamp, collapse)
    requires WriteCollapse(db, t.dedupe, t.winnerId, t.read, t.at, t.winner, stamp, collapse).reply.Refused?
    ensures t.winnerId in db.records
    ensures AtomicResolve(db, t.dedupe, t.at, stamp, collapse).reply
         == WriteCollapse(db, t.dedupe, t.winnerId, t.read, t.at, t.winner, stamp, collapse).reply
      <==> db.records[t.dedupe.candidateId].version != t.dedupe.candidateVersion
           || EventKey(t.winnerId, db.records[t.winnerId].version, MemoryDedupeCollapsed) in db.events
  {
    if db.records[t.dedupe.candidateId].version == t.dedupe.candidateVersion {
      CollapseReply(db, t, stamp, collapse);
      AloneReply(db, t, stamp, collapse);
    }
  }
}
