/**
 * The store's calls, statement by statement. Between two reads, and between the last read
 * and the writes, the rest of the world runs a script of its own; from its first write to
 * its commit a transaction holds the row lock and nobody sees what it wrote, so those
 * statements run together. Whatever the scripts do, a call has the effect and the answer
 * the atomic call has at one moment during it.
 */
module Store {
  import opened Common
  import opened Entities
  import opened StoreModel
  import opened StoreInvariants
  import opened Atomicity
  import opened AtomicCalls
  import Dedupe
  import opened Success
  import opened StoreDatabase
  import PromoteHash

  /** Everything a call does not decide itself, indexed by the moment it is consulted. */
  datatype World = World(
    script: nat -> seq<Action>,
    clock: nat -> Time,
    memoryId: MemoryId,
    eventId: nat -> EventId,
    outboxId: nat -> OutboxId)

  /** The moment is one of the call: it comes after its start, and at most the transaction's own last step follows it. */
  ghost predicate During(moment: History, start: History, end: History, tx: TxId) {
    && Continues(moment, start) && Continues(end, moment)
    && (end == moment || (end.Then? && end.before == moment && StepOf(end.last, tx)))
  }

  lemma DuringLater(moment: History, middle: History, start: History, end: History, tx: TxId)
    requires During(moment, middle, end, tx) && Continues(middle, start)
    ensures During(moment, start, end, tx)
  {
    ContinuesTransitive(moment, middle, start);
  }

  /** With the tables of the moment, the atomic call leaves these tables and gives this answer. */
  ghost predicate Linearized(moment: History, op: Op, db: Db, reply: Reply) {
    && After(moment).Some?
    && SameOutcome(Result(db, reply), Atomic(After(moment).value.db, op))
    && (reply.Refused? ==> db == After(moment).value.db)
  }

  /**
   * The op works with the ids and the clock reading the call draws; or it was answered before
   * any were drawn, and then it changed nothing and no unique key can have refused it.
   */
  ghost predicate Draws(moment: History, op: Op, db: Db, reply: Reply, world: World)
    requires op.Write? || op.Change? || op.Promotion?
  {
    || (op.stamp == NO_STAMP && reply != Refused(ConstraintViolation) && After(moment).Some? && db == After(moment).value.db)
    || (&& op.at == world.clock(0)
        && op.stamp.eventId == world.eventId(0) && op.stamp.outboxId == world.outboxId(0)
        && (op.Write? ==> op.uuid == world.memoryId))
  }

  /** A duplicate with the same key committed after the call had looked the key up; the call is refused. */
  ghost predicate Overtaken(moment: History, scope: Scoped, db: Db, reply: Reply) {
    && After(moment).Some? && scope in After(moment).value.db.idempotency
    && reply.Refused? && db == After(moment).value.db
  }

  /** The ids the call draws have never been used at that moment. */
  ghost predicate DrawsUnused(moment: History, world: World) {
    After(moment).Some? && Unused(After(moment).value.db, world.eventId(0), world.outboxId(0))
  }

  /** With such ids a mutation is answered by what there is at that moment. */
  ghost predicate MutationDecided(moment: History, input: MutationInput, reply: Reply, world: World) {
    DrawsUnused(moment, world) ==> MutationAnswer(After(moment).value.db, input, reply)
  }

  /** So is a promotion, unless its key is recorded at that moment. */
  ghost predicate PromotionDecided(moment: History, input: PromoteInput, reply: Reply, world: World) {
    DrawsUnused(moment, world) && Unrecorded(After(moment).value.db, input.tenantId, input.key) ==>
      PromotionAnswer(After(moment).value.db, input, reply)
  }

  /** And a write. */
  ghost predicate WriteDecided(moment: History, input: WriteInput, reply: Reply, world: World) {
    DrawsUnused(moment, world) && Scoped(input.tenantId, input.key) !in After(moment).value.db.idempotency ==>
      WriteAnswer(After(moment).value.db, input, world.memoryId, reply)
  }

  /** A mutation refused at its read is refused as the atomic one would be then. */
  lemma MutationReadMoment(h: History, s: State, input: MutationInput)
    requires After(h) == Some(s) && ReadForMutation(s, input).Stop?
    ensures Linearized(h, Change(input, 0, NO_STAMP), s.db, Refused(ReadForMutation(s, input).error))
    ensures MutationAnswer(s.db, input, Refused(ReadForMutation(s, input).error))
  {
  }

  /** Its commit, accepted or refused, is the atomic one. */
  lemma MutationCommitMoment(h: History, s: State, tx: TxId, at: Time, stamp: Stamp)
    requires After(h) == Some(s) && tx in s.txs && s.txs[tx].MutateOpen? && stamp.startedAt == s.txs[tx].startedAt
    ensures var w := WriteMutation(s.db, s.txs[tx].mutate, s.txs[tx].read, at, stamp);
      Linearized(h, Change(s.txs[tx].mutate, at, stamp), w.db, w.reply)
  {
    Reachable(h, s);
    MutateCommitIsAtomic(s, MutateCommit(tx, at, stamp.eventId, stamp.outboxId));
  }

  /** And with ids never used before, it is answered by what there is then. */
  lemma MutationCommitDecided(h: History, s: State, op: Op, db: Db, reply: Reply)
    requires After(h) == Some(s) && op.Change? && Linearized(h, op, db, reply)
    ensures Unused(s.db, op.stamp.eventId, op.stamp.outboxId) ==> MutationAnswer(s.db, op.mutate, reply)
  {
    if Unused(s.db, op.stamp.eventId, op.stamp.outboxId) {
      Reachable(h, s);
      MutationSucceedsIff(s.db, op.mutate, op.at, op.stamp);
      SameReplySameAnswer(reply, AtomicChange(s.db, op.mutate, op.at, op.stamp).reply);
    }
  }

  /** Replies that differ at most in access columns are the same kind of answer. */
  lemma SameReplySameAnswer(r: Reply, q: Reply)
    requires SameReply(r, q)
    ensures (r.Mutated? <==> q.Mutated?) && (r.Written? <==> q.Written?)
    ensures r.Refused? || q.Refused? ==> r == q
    ensures r.Written? ==> r.result.created == q.result.created
  {
  }

  lemma WriteCommitDecided(h: History, s: State, op: Op, db: Db, reply: Reply)
    requires After(h) == Some(s) && op.Write? && Linearized(h, op, db, reply)
    requires Scoped(op.write.tenantId, op.write.key) !in s.db.idempotency
    ensures Unused(s.db, op.stamp.eventId, op.stamp.outboxId) ==> WriteAnswer(s.db, op.write, op.uuid, reply)
  {
    if Unused(s.db, op.stamp.eventId, op.stamp.outboxId) {
      Reachable(h, s);
      WriteSucceedsIff(s.db, op.write, op.uuid, op.at, op.stamp);
      SameReplySameAnswer(reply, AtomicWrite(s.db, op.write, op.uuid, op.at, op.stamp).reply);
    }
  }

  lemma PromotionCommitDecided(h: History, s: State, op: Op, db: Db, reply: Reply)
    requires After(h) == Some(s) && op.Promotion? && PromotedOrOvertaken(h, op, db, reply)
    requires Unrecorded(s.db, op.promote.tenantId, op.promote.key)
    ensures Unused(s.db, op.stamp.eventId, op.stamp.outboxId) ==> PromotionAnswer(s.db, op.promote, reply)
  {
    if Unused(s.db, op.stamp.eventId, op.stamp.outboxId) {
      Reachable(h, s);
      PromotionSucceedsIff(s.db, op.promote, op.at, op.stamp);
      SameReplySameAnswer(reply, AtomicPromotion(s.db, op.promote, op.at, op.stamp).reply);
    }
  }

  lemma WriteCommitMoment(h: History, s: State, tx: TxId, uuid: MemoryId, at: Time, stamp: Stamp)
    requires After(h) == Some(s) && tx in s.txs && s.txs[tx].WriteOpen?
    ensures var input := s.txs[tx].write; var scope := Scoped(input.tenantId, input.key);
      var w := WriteNew(s.db, input, uuid, at, stamp);
      if scope in s.db.idempotency then Overtaken(h, scope, w.db, w.reply)
      else Linearized(h, Write(input, uuid, at, stamp), w.db, w.reply)
  {
    Reachable(h, s);
    assert TxSound(s.db, s.txs[tx]);
  }

  lemma PromoteLookupMoment(h: History, s: State, input: PromoteInput)
    requires After(h) == Some(s) && !LookUpPromotion(s, input).Continue?
    ensures Linearized(h, Promotion(input, 0, NO_STAMP), s.db, ReplyTo(s.db, LookUpPromotion(s, input)).reply)
  {
  }

  lemma PromoteReadMoment(h: History, s: State, tx: TxId)
    requires After(h) == Some(s) && tx in s.txs && s.txs[tx].PromoteLookedUp? && ReadForPromotion(s, s.txs[tx]).Stop?
    ensures PromotedOrOvertaken(h, Promotion(s.txs[tx].promote, 0, NO_STAMP), s.db,
                                Refused(ReadForPromotion(s, s.txs[tx]).error))
    ensures PromotionAnswer(s.db, s.txs[tx].promote, Refused(ReadForPromotion(s, s.txs[tx]).error))
  {
    Reachable(h, s);
    assert TxSound(s.db, s.txs[tx]);
  }

  lemma PromoteCommitMoment(h: History, s: State, tx: TxId, at: Time, stamp: Stamp)
    requires After(h) == Some(s) && tx in s.txs && s.txs[tx].PromoteOpen? && stamp.startedAt == s.txs[tx].startedAt
    ensures var w := WritePromotion(s.db, s.txs[tx].promote, s.txs[tx].read, at, stamp);
      PromotedOrOvertaken(h, Promotion(s.txs[tx].promote, at, stamp), w.db, w.reply)
  {
    Reachable(h, s);
    assert TxSound(s.db, s.txs[tx]);
    var t := s.txs[tx];
    if WritePromotion(s.db, t.promote, t.read, at, stamp).reply.Refused? {
      RefusedPromotionIsAtomicUnlessOvertaken(s, PromoteCommit(tx, at, stamp.eventId, stamp.outboxId));
    } else {
      PromotionIsAtomic(s.db, t, at, stamp);
    }
  }

  /** The call was atomic at that moment, or a duplicate with its key got in first. */
  ghost predicate PromotedOrOvertaken(moment: History, op: Op, db: Db, reply: Reply)
    requires op.Promotion?
  {
    || Linearized(moment, op, db, reply)
    || (op.promote.key != "" && Overtaken(moment, Scoped(op.promote.tenantId, op.promote.key), db, reply))
  }

  /** The op collapses into the registered winner, showing a committed version of it or the call's own tombstone. */
  ghost predicate CollapsesWinner(before: Db, op: Op, db: Db)
    requires op.Collapse?
  {
    var scope := Scoped(op.dedupe.tenantId, op.dedupe.dedupeKey);
    && scope in before.winners && before.winners[scope] == op.winnerId && db.winners == before.winners
    && op.winnerId in before.records && op.winner.memoryId == op.winnerId && Known(db, op.winner)
  }

  /** The answer names the winner and tells its pin: of the version shown, which is the row's while that is current. */
  ghost predicate AnswersPin(before: Db, op: Op, reply: Reply)
    requires op.Collapse? && op.winnerId in before.records
  {
    && Dedupe.ReportsPin(reply, op.winner.pinned) && reply.winnerId == op.winnerId
    && (op.winnerId == op.dedupe.candidateId || before.records[op.winnerId].version == op.winner.version ==>
          Dedupe.ReportsPin(reply, before.records[op.winnerId].pinned))
  }

  /** The candidate became the winner of a free key, and nothing else changed. */
  ghost predicate Registered(moment: History, input: DedupeInput, db: Db, reply: Reply) {
    && After(moment).Some? && Scoped(input.tenantId, input.dedupeKey) !in After(moment).value.db.winners
    && db == After(moment).value.db.(winners :=
         After(moment).value.db.winners[Scoped(input.tenantId, input.dedupeKey) := input.candidateId])
    && reply == Resolved(input.candidateId, NoCollision)
  }

  /** It was the call run alone exactly when the version shown was still the winner's. */
  ghost predicate AloneIfCurrent(before: Db, op: Op, db: Db, reply: Reply)
    requires op.Collapse? && op.winnerId in before.records
  {
    SameOutcome(Result(db, reply), AtomicResolve(before, op.dedupe, op.at, op.stamp, op.collapse))
    <==> op.winnerId == op.dedupe.candidateId || before.records[op.winnerId].version == op.winner.version
  }

  ghost predicate Collapsed(moment: History, op: Op, db: Db, reply: Reply) {
    && op.Collapse? && Linearized(moment, op, db, reply)
    && CollapsesWinner(After(moment).value.db, op, db)
    && AloneIfCurrent(After(moment).value.db, op, db, reply)
    && AnswersPin(After(moment).value.db, op, reply)
  }

  /** The collapse works with the ids and the clock reading the call draws. */
  ghost predicate DrawsCollapse(op: Op, world: World) {
    && op.Collapse? && op.at == world.clock(0)
    && op.stamp.eventId == world.eventId(0) && op.stamp.outboxId == world.outboxId(0)
    && op.collapse.eventId == world.eventId(1) && op.collapse.outboxId == world.outboxId(1)
  }

  /** Why a resolution that collided is refused, by its error; `op` holds the winner it read, if it got that far. */
  ghost predicate ResolveRefused(db: Db, input: DedupeInput, error: Error, op: Op, world: World) {
    var scope := Scoped(input.tenantId, input.dedupeKey);
    var loser := Load(db, input.tenantId, input.candidateId);
    && scope in db.winners
    && match error
       case NotFound => loser == None || Load(db, input.tenantId, db.winners[scope]) == None
       case VersionConflict => loser.Some? && loser.value.version != input.candidateVersion
       case ConstraintViolation =>
         && loser.Some? && loser.value.version == input.candidateVersion
         && (!Dedupe.FreshIds(db, Stamp(world.eventId(0), world.outboxId(0), 0), Stamp(world.eventId(1), world.outboxId(1), 0))
             || CollapsedBefore(db, input, op))
       case _ => false
  }

  /** The winner, not the candidate, had a collapse event at the version this call read. */
  ghost predicate CollapsedBefore(db: Db, input: DedupeInput, op: Op) {
    && op.Collapse? && op.dedupe == input && op.winnerId != input.candidateId
    && Scoped(input.tenantId, input.dedupeKey) in db.winners
    && op.winnerId == db.winners[Scoped(input.tenantId, input.dedupeKey)]
    && op.winner.memoryId == op.winnerId && Known(db, op.winner)
    && EventKey(op.winnerId, op.winner.version, MemoryDedupeCollapsed) in db.events
  }

  lemma WinnerStaysRegistered(db: Db, t: Tx, stamp: Stamp, collapse: Stamp)
    requires t.CollapseOpen? && TxSound(db, t)
    ensures WriteCollapse(db, t.dedupe, t.winnerId, t.read, t.at, t.winner, stamp, collapse).db.winners == db.winners
    ensures var scope := Scoped(t.dedupe.tenantId, t.dedupe.dedupeKey);
      scope in db.winners && db.winners[scope] == t.winnerId
  {
  }

  lemma ShownWinnerIsKnown(db: Db, t: Tx, stamp: Stamp, collapse: Stamp)
    requires DbSound(db) && t.CollapseOpen? && TxSound(db, t)
    requires !WriteCollapse(db, t.dedupe, t.winnerId, t.read, t.at, t.winner, stamp, collapse).reply.Refused?
    ensures Known(WriteCollapse(db, t.dedupe, t.winnerId, t.read, t.at, t.winner, stamp, collapse).db, t.winner)
  {
    WinnerIsKnown(db, t, stamp);
    var mid := WriteMutation(db, LoserInput(t.dedupe), t.read, t.at, stamp).db;
    CollapseKeepsKnown(mid, t.winner, collapse, Some(t.dedupe.candidateId), t.winner);
  }

  lemma CommitCollapsesWinner(db: Db, t: Tx, stamp: Stamp, collapse: Stamp)
    requires DbSound(db) && t.CollapseOpen? && TxSound(db, t)
    requires !WriteCollapse(db, t.dedupe, t.winnerId, t.read, t.at, t.winner, stamp, collapse).reply.Refused?
    ensures CollapsesWinner(db, Collapse(t.dedupe, t.winnerId, t.winner, t.at, stamp, collapse),
                            WriteCollapse(db, t.dedupe, t.winnerId, t.read, t.at, t.winner, stamp, collapse).db)
  {
    WinnerStaysRegistered(db, t, stamp, collapse);
    ShownWinnerIsKnown(db, t, stamp, collapse);
    LoadsRegistered(db, t);
  }

  lemma CommitIsAloneIfCurrent(db: Db, t: Tx, stamp: Stamp, collapse: Stamp)
    requires DbSound(db) && t.CollapseOpen? && TxSound(db, t) && t.winnerId in db.records
    requires !WriteCollapse(db, t.dedupe, t.winnerId, t.read, t.at, t.winner, stamp, collapse).reply.Refused?
    ensures var w := WriteCollapse(db, t.dedupe, t.winnerId, t.read, t.at, t.winner, stamp, collapse);
      AloneIfCurrent(db, Collapse(t.dedupe, t.winnerId, t.winner, t.at, stamp, collapse), w.db, w.reply)
  {
    CollapseIsAloneIff(db, t, stamp, collapse);
  }

  lemma CommitAnswersPin(db: Db, t: Tx, stamp: Stamp, collapse: Stamp)
    requires DbSound(db) && t.CollapseOpen? && TxSound(db, t) && t.winnerId in db.records
    requires !WriteCollapse(db, t.dedupe, t.winnerId, t.read, t.at, t.winner, stamp, collapse).reply.Refused?
    ensures AnswersPin(db, Collapse(t.dedupe, t.winnerId, t.winner, t.at, stamp, collapse),
                       WriteCollapse(db, t.dedupe, t.winnerId, t.read, t.at, t.winner, stamp, collapse).reply)
  {
    Dedupe.CollapseReportsPin(db, t, stamp, collapse);
  }

  lemma CollapseLinearized(h: History, s: State, tx: TxId, stamp: Stamp, collapse: Stamp)
    requires After(h) == Some(s) && tx in s.txs && s.txs[tx].CollapseOpen? && StateSound(s)
    requires var t := s.txs[tx];
      !WriteCollapse(s.db, t.dedupe, t.winnerId, t.read, t.at, t.winner, stamp, collapse).reply.Refused?
    ensures var t := s.txs[tx]; var w := WriteCollapse(s.db, t.dedupe, t.winnerId, t.read, t.at, t.winner, stamp, collapse);
      Linearized(h, Collapse(t.dedupe, t.winnerId, t.winner, t.at, stamp, collapse), w.db, w.reply)
  {
    var t := s.txs[tx];
    assert TxSound(s.db, t);
    CollapseIsAtomic(s.db, t, stamp, collapse);
    AtomicCollapseLinearizes(h, s, t, stamp, collapse,
                             WriteCollapse(s.db, t.dedupe, t.winnerId, t.read, t.at, t.winner, stamp, collapse));
  }

  lemma AtomicCollapseLinearizes(h: History, s: State, t: Tx, stamp: Stamp, collapse: Stamp, w: Result)
    requires After(h) == Some(s) && t.CollapseOpen? && !w.reply.Refused?
    requires SameOutcome(w, AtomicCollapse(s.db, t.dedupe, t.winnerId, t.winner, t.at, stamp, collapse))
    ensures Linearized(h, Collapse(t.dedupe, t.winnerId, t.winner, t.at, stamp, collapse), w.db, w.reply)
  {
    assert Result(w.db, w.reply) == w;
  }

  lemma CollapseCommitMoment(h: History, s: State, tx: TxId, stamp: Stamp, collapse: Stamp)
    requires After(h) == Some(s) && tx in s.txs && s.txs[tx].CollapseOpen?
    requires var t := s.txs[tx];
      !WriteCollapse(s.db, t.dedupe, t.winnerId, t.read, t.at, t.winner, stamp, collapse).reply.Refused?
    ensures var t := s.txs[tx]; var w := WriteCollapse(s.db, t.dedupe, t.winnerId, t.read, t.at, t.winner, stamp, collapse);
      Collapsed(h, Collapse(t.dedupe, t.winnerId, t.winner, t.at, stamp, collapse), w.db, w.reply)
  {
    Reachable(h, s);
    assert TxSound(s.db, s.txs[tx]);
    CollapseLinearized(h, s, tx, stamp, collapse);
    CommitCollapsesWinner(s.db, s.txs[tx], stamp, collapse);
    CommitIsAloneIfCurrent(s.db, s.txs[tx], stamp, collapse);
    CommitAnswersPin(s.db, s.txs[tx], stamp, collapse);
  }

  lemma RefusedCommitCause(h: History, s: State, tx: TxId, world: World)
    requires After(h) == Some(s) && tx in s.txs && s.txs[tx].CollapseOpen?
    ensures var t := s.txs[tx];
      var reply := WriteCollapse(s.db, t.dedupe, t.winnerId, t.read, t.at, t.winner,
                                 Stamp(world.eventId(0), world.outboxId(0), t.startedAt),
                                 Stamp(world.eventId(1), world.outboxId(1), t.startedAt)).reply;
      var op := Collapse(t.dedupe, t.winnerId, t.winner, t.at, Stamp(world.eventId(0), world.outboxId(0), t.startedAt),
                         Stamp(world.eventId(1), world.outboxId(1), t.startedAt));
      reply.Refused? ==> ResolveRefused(s.db, t.dedupe, reply.error, op, world)
  {
    Reachable(h, s);
    var t := s.txs[tx];
    assert TxSound(s.db, t);
    LoadsRegistered(s.db, t);
    var stamp := Stamp(world.eventId(0), world.outboxId(0), t.startedAt);
    var collapse := Stamp(world.eventId(1), world.outboxId(1), t.startedAt);
    if Dedupe.FreshIds(s.db, stamp, collapse) && s.db.records[t.dedupe.candidateId].version == t.dedupe.candidateVersion {
      CollapseReply(s.db, t, stamp, collapse);
    }
  }

  lemma RefusedReadCause(h: History, s: State, tx: TxId, at: Time, world: World)
    requires After(h) == Some(s) && tx in s.txs && (s.txs[tx].Collided? || s.txs[tx].LoserRead?)
    ensures var p := if s.txs[tx].Collided? then ReadLoser(s, s.txs[tx]) else ReadWinner(s, s.txs[tx], at);
      p.Stop? ==> ResolveRefused(s.db, s.txs[tx].dedupe, p.error, Register(s.txs[tx].dedupe), world)
  {
    Reachable(h, s);
    assert TxSound(s.db, s.txs[tx]);
  }

  class Store {
    const tables: Tables

    constructor (tables: Tables)
      ensures this.tables == tables
    {
      this.tables := tables;
    }

    /** The closure of PatchRecord: what the request leaves empty stays. */
    static method ApplyPatch(m: Mutation, read: Record) returns (current: Record)
      requires m.Patch?
      ensures current == read.(content := if m.content != "" then m.content else read.content,
                               category := if m.category != "" then m.category else read.category,
                               tags := if m.tags.Some? then m.tags.value else read.tags,
                               importance := if m.importance != 0.0 then m.importance else read.importance)
    {
      current := read;
      if m.content != "" {
        current := current.(content := m.content);
      }
      if m.category != "" {
        current := current.(category := m.category);
      }
      if m.tags.Some? {
        current := current.(tags := m.tags.value);
      }
      if m.importance != 0.0 {
        current := current.(importance := m.importance);
      }
    }

    /** The closure that applies the request to the record read, and the version increment. */
    static method ApplyMutation(m: Mutation, read: Record, now: Time) returns (current: Record)
      ensures current == Mutate(m, read, now)
    {
      current := read;
      match m {
        case Patch(_, _, _, _) => current := ApplyPatch(m, read);
        case Delete => current := current.(deleted := true, deletedAt := Some(now));
        case Pin(on) => current := current.(pinned := on);
        case Disable(on) => current := current.(disabled := on);
      }
      current := current.(updatedAt := now);
      current := current.(version := current.version + 1);
    }

    /** The writes of mutateRecordTx; when one fails the caller rolls back. */
    method WriteMutated(input: MutationInput, read: Record, now: Time, stamp: Stamp) returns (reply: Reply)
      modifies tables`records, tables`events, tables`outbox
      ensures reply == WriteMutation(old(tables.Contents()), input, read, now, stamp).reply
      ensures reply.Mutated? || reply.Refused?
      ensures !reply.Refused? ==>
        tables.Contents() == WriteMutation(old(tables.Contents()), input, read, now, stamp).db
    {
      var current := ApplyMutation(input.mutation, read, now);
      var updated := tables.UpdateMutated(input.tenantId, input.memoryId, input.expectedVersion, current);
      if updated == Violation {
        return Refused(ConstraintViolation);
      }
      if updated.affected != 1 {
        return Refused(VersionConflict);
      }
      var inserted := tables.InsertEventAndOutbox(current, MutationEvent(input.mutation), stamp, None, None);
      if inserted == Violation {
        return Refused(ConstraintViolation);
      }
      reply := Mutated(current);
    }

    /** The same, rolled back as a whole when one of them fails. */
    method WriteMutatedOrNothing(input: MutationInput, read: Record, now: Time, stamp: Stamp) returns (reply: Reply)
      modifies tables
      ensures Result(tables.Contents(), reply) == WriteMutation(old(tables.Contents()), input, read, now, stamp)
      ensures tables.now == old(tables.now) && tables.txs == old(tables.txs) && tables.history == old(tables.history)
    {
      var saved := tables.Contents();
      reply := WriteMutated(input, read, now, stamp);
      if reply.Refused? {
        tables.Restore(saved);
      }
    }

    /** The reading half of a mutation: the record to work on, or a refusal that ends the call. */
    method ReadForUpdate(tx: TxId, input: MutationInput) returns (read: Option<Record>, reply: Reply)
      requires tables.Valid() && tx !in tables.txs
      requires input.tenantId != "" && input.memoryId != "" && input.expectedVersion > 0
      modifies tables
      ensures tables.Valid() && tables.history == Then(old(tables.history), MutateRead(tx, input))
      ensures tables.Contents() == old(tables.Contents())
      ensures read.Some? ==> tx in tables.txs && tables.txs[tx] == MutateOpen(input, old(tables.now), read.value)
      ensures read == None ==>
        (tx !in tables.txs && reply != Refused(ConstraintViolation)
         && Linearized(old(tables.history), Change(input, 0, NO_STAMP), tables.Contents(), reply)
         && MutationAnswer(old(tables.Contents()), input, reply))
    {
      var s := tables.Snapshot();
      ghost var h := tables.history;
      read := tables.LoadRecord(input.tenantId, input.memoryId);
      reply := StillOpen;
      if read == None {
        reply := Refused(NotFound);
      } else if read.value.version != input.expectedVersion {
        read, reply := None, Refused(VersionConflict);
      }
      tables.Record(MutateRead(tx, input), s);
      if read == None {
        MutationReadMoment(h, s, input);
      }
    }

    /** Patch, delete, pin and disable: read without a lock, change the copy, write under the version guard. */
    method MutateRecord(tx: TxId, world: World, input: MutationInput) returns (reply: Reply, ghost moment: History, ghost op: Op)
      requires tables.Valid() && tx !in tables.txs
      modifies tables
      ensures tables.Valid() && tx !in tables.txs
      ensures During(moment, old(tables.history), tables.history, tx)
      ensures op.Change? && op.mutate == input && Linearized(moment, op, tables.Contents(), reply)
      ensures Draws(moment, op, tables.Contents(), reply, world)
      ensures MutationDecided(moment, input, reply, world)
    {
      moment, op := tables.history, Change(input, 0, NO_STAMP);
      if input.tenantId == "" || input.memoryId == "" {
        reply := Refused(NotFound);
        MutationReadMoment(moment, tables.Snapshot(), input);
        return;
      }
      if input.expectedVersion <= 0 {
        reply := Refused(VersionConflict);
        MutationReadMoment(moment, tables.Snapshot(), input);
        return;
      }
      tables.Yield(tx, world.script(0));
      moment := tables.history;
      var startedAt := tables.now;
      var read;
      read, reply := ReadForUpdate(tx, input);
      if read.Some? {
        tables.Yield(tx, world.script(1));
        ghost var earlier := moment;
        reply, moment, op := CommitMutation(tx, world, input, read.value, startedAt);
        DuringLater(moment, Then(earlier, MutateRead(tx, input)), old(tables.history), tables.history, tx);
      }
    }

    /** The writing half of a mutation, committed or rolled back. */
    method CommitMutation(tx: TxId, world: World, input: MutationInput, read: Record, startedAt: Time)
      returns (reply: Reply, ghost moment: History, ghost op: Op)
      requires tables.Valid() && tx in tables.txs && tables.txs[tx] == MutateOpen(input, startedAt, read)
      modifies tables
      ensures tables.Valid() && tx !in tables.txs && moment == old(tables.history)
      ensures During(moment, moment, tables.history, tx)
      ensures op == Change(input, world.clock(0), Stamp(world.eventId(0), world.outboxId(0), startedAt))
      ensures Linearized(moment, op, tables.Contents(), reply) && MutationDecided(moment, input, reply, world)
    {
      moment := tables.history;
      var before, stamp := tables.Snapshot(), Stamp(world.eventId(0), world.outboxId(0), startedAt);
      op := Change(input, world.clock(0), stamp);
      reply := WriteMutatedOrNothing(input, read, world.clock(0), stamp);
      MutationCommitMoment(moment, before, tx, world.clock(0), stamp);
      MutationCommitDecided(moment, before, op, tables.Contents(), reply);
      tables.Record(MutateCommit(tx, world.clock(0), stamp.eventId, stamp.outboxId), before);
    }

    // ------------------------------------------------------------------ writes

    /** lookupIdempotentWrite: nothing recorded, the recorded response, or a conflict. */
    method LookupIdempotentWrite(scope: Scoped, requestHash: string) returns (replay: Option<Reply>)
      ensures replay == None <==> scope !in tables.idempotency
      ensures replay == Some(Refused(IdempotencyConflict)) <==>
        scope in tables.idempotency && tables.idempotency[scope].requestHash != requestHash
      ensures scope in tables.idempotency && tables.idempotency[scope].requestHash == requestHash ==>
        replay == Some(Written(tables.idempotency[scope].response))
    {
      var entry := tables.LoadIdempotency(scope);
      if entry == None {
        return None;
      }
      if entry.value.requestHash != requestHash {
        return Some(Refused(IdempotencyConflict));
      }
      replay := Some(Written(entry.value.response));
    }

    /** The record as it is inserted: first version, with an id and a creation time of its own if it brings none. */
    static method PrepareRecord(input: WriteInput, uuid: MemoryId, now: Time) returns (record: Record)
      ensures record == NewRecord(input, uuid, now)
    {
      record := input.record.(tenantId := input.tenantId);
      if record.memoryId == "" {
        record := record.(memoryId := uuid);
      }
      if record.origin.createdAt == ZERO_TIME {
        record := record.(origin := record.origin.(createdAt := now));
      }
      record := record.(updatedAt := now);
      record := record.(version := 1);
    }

    /** The four inserts of WriteRecord; when one fails the caller rolls back. */
    method WriteInserted(input: WriteInput, uuid: MemoryId, now: Time, stamp: Stamp) returns (reply: Reply)
      modifies tables`records, tables`events, tables`outbox, tables`idempotency
      ensures reply == WriteNew(old(tables.Contents()), input, uuid, now, stamp).reply
      ensures !reply.Refused? ==> tables.Contents() == WriteNew(old(tables.Contents()), input, uuid, now, stamp).db
    {
      reply := Refused(ConstraintViolation);
      var record := PrepareRecord(input, uuid, now);
      var e := tables.InsertRecord(record);
      if e == Violation {
        return;
      }
      e := tables.InsertEventAndOutbox(record, MemoryCreated, stamp, Some(input.key), None);
      if e == Violation {
        return;
      }
      var result := WriteResult(record.memoryId, record.version, true, record);
      e := tables.InsertIdempotency(Scoped(input.tenantId, input.key), input.requestHash, result);
      if e == Violation {
        return;
      }
      reply := Written(result);
    }

    method WriteInsertedOrNothing(input: WriteInput, uuid: MemoryId, now: Time, stamp: Stamp) returns (reply: Reply)
      modifies tables
      ensures Result(tables.Contents(), reply) == WriteNew(old(tables.Contents()), input, uuid, now, stamp)
      ensures tables.now == old(tables.now) && tables.txs == old(tables.txs) && tables.history == old(tables.history)
    {
      var saved := tables.Contents();
      reply := WriteInserted(input, uuid, now, stamp);
      if reply.Refused? {
        tables.Restore(saved);
      }
    }

    /** A keyed write: replayed when the key is known, inserted with its event and outbox row otherwise. */
    method WriteRecord(tx: TxId, world: World, input: WriteInput) returns (reply: Reply, ghost moment: History, ghost op: Op)
      requires tables.Valid() && tx !in tables.txs
      modifies tables
      ensures tables.Valid() && tx !in tables.txs
      ensures During(moment, old(tables.history), tables.history, tx)
      ensures op.Write? && op.write == input && Draws(moment, op, tables.Contents(), reply, world)
      ensures WriteDecided(moment, input, reply, world)
      ensures Linearized(moment, op, tables.Contents(), reply)
        || Overtaken(moment, Scoped(input.tenantId, input.key), tables.Contents(), reply)
    {
      moment, op := tables.history, Write(input, "", 0, NO_STAMP);
      if input.tenantId == "" || input.key == "" || input.requestHash == "" {
        reply := Refused(InvalidInput);
        return;
      }
      tables.Yield(tx, world.script(0));
      moment := tables.history;
      var before := tables.Snapshot();
      var replay := LookupIdempotentWrite(Scoped(input.tenantId, input.key), input.requestHash);
      tables.Record(WriteLookup(tx, input), before);
      if replay.Some? {
        reply := replay.value;
      } else {
        tables.Yield(tx, world.script(1));
        ghost var earlier := moment;
        reply, moment, op := CommitWrite(tx, world, input, before.now);
        DuringLater(moment, Then(earlier, WriteLookup(tx, input)), old(tables.history), tables.history, tx);
      }
    }

    /** The inserting half of WriteRecord, committed or rolled back. */
    method CommitWrite(tx: TxId, world: World, input: WriteInput, startedAt: Time)
      returns (reply: Reply, ghost moment: History, ghost op: Op)
      requires tables.Valid() && tx in tables.txs && tables.txs[tx] == WriteOpen(input, startedAt)
      modifies tables
      ensures tables.Valid() && tx !in tables.txs && moment == old(tables.history)
      ensures During(moment, moment, tables.history, tx)
      ensures op == Write(input, world.memoryId, world.clock(0), Stamp(world.eventId(0), world.outboxId(0), startedAt))
      ensures Linearized(moment, op, tables.Contents(), reply)
        || Overtaken(moment, Scoped(input.tenantId, input.key), tables.Contents(), reply)
      ensures WriteDecided(moment, input, reply, world)
    {
      moment := tables.history;
      var before, stamp := tables.Snapshot(), Stamp(world.eventId(0), world.outboxId(0), startedAt);
      op := Write(input, world.memoryId, world.clock(0), stamp);
      reply := WriteInsertedOrNothing(input, world.memoryId, world.clock(0), stamp);
      WriteCommitMoment(moment, before, tx, world.memoryId, world.clock(0), stamp);
      if Scoped(input.tenantId, input.key) !in before.db.idempotency {
        WriteCommitDecided(moment, before, op, tables.Contents(), reply);
      }
      tables.Record(WriteCommit(tx, world.memoryId, world.clock(0), stamp.eventId, stamp.outboxId), before);
    }

    // --------------------------------------------------------------- promotion

    /** The writes of Promote; when one fails the caller rolls back. */
    method WritePromoted(input: PromoteInput, read: Record, now: Time, stamp: Stamp) returns (reply: Reply)
      modifies tables`records, tables`events, tables`outbox, tables`idempotency
      ensures reply == WritePromotion(old(tables.Contents()), input, read, now, stamp).reply
      ensures !reply.Refused? ==> tables.Contents() == WritePromotion(old(tables.Contents()), input, read, now, stamp).db
    {
      reply := Refused(ConstraintViolation);
      var current := read.(kind := Episodic);
      current := current.(consolidatedFrom := input.sourceEventId);
      current := current.(updatedAt := now);
      current := current.(version := current.version + 1);
      var e := tables.UpdatePromoted(input.tenantId, input.memoryId, read.version, current);
      if e != Rows(1) {
        return Refused(VersionConflict);
      }
      e := tables.InsertEventAndOutbox(current, MemoryPromoted, stamp, None, None);
      if e == Violation {
        return;
      }
      var result := WriteResult(current.memoryId, current.version, true, current);
      if input.key != "" {
        var hash := PromoteHash.RequestHash(input.memoryId, input.sourceEventId, input.expectedVersion);
        e := tables.InsertIdempotency(Scoped(input.tenantId, input.key), hash, result);
        if e == Violation {
          return;
        }
      }
      reply := Written(result);
    }

    method WritePromotedOrNothing(input: PromoteInput, read: Record, now: Time, stamp: Stamp) returns (reply: Reply)
      modifies tables
      ensures Result(tables.Contents(), reply) == WritePromotion(old(tables.Contents()), input, read, now, stamp)
      ensures tables.now == old(tables.now) && tables.txs == old(tables.txs) && tables.history == old(tables.history)
    {
      var saved := tables.Contents();
      reply := WritePromoted(input, read, now, stamp);
      if reply.Refused? {
        tables.Restore(saved);
      }
    }

    /** A keyed promotion looks its key up first; a replay answers with Created false. */
    method LookUpKey(tx: TxId, input: PromoteInput) returns (done: bool, reply: Reply)
      requires tables.Valid() && tx !in tables.txs && input.tenantId != "" && input.memoryId != ""
      modifies tables
      ensures tables.Valid() && tables.history == Then(old(tables.history), PromoteLookup(tx, input))
      ensures tables.Contents() == old(tables.Contents())
      ensures done ==> (tx !in tables.txs && reply != Refused(ConstraintViolation)
        && !Unrecorded(old(tables.Contents()), input.tenantId, input.key)
        && Linearized(old(tables.history), Promotion(input, 0, NO_STAMP), tables.Contents(), reply))
      ensures !done ==> tx in tables.txs && tables.txs[tx] == PromoteLookedUp(input, old(tables.now))
    {
      var before := tables.Snapshot();
      ghost var h := tables.history;
      done, reply := false, StillOpen;
      if input.key != "" {
        var hash := PromoteHash.RequestHash(input.memoryId, input.sourceEventId, input.expectedVersion);
        var replay := LookupIdempotentWrite(Scoped(input.tenantId, input.key), hash);
        if replay.Some? {
          done, reply := true, replay.value;
          if reply.Written? {
            reply := Written(reply.result.(created := false));
          }
        }
      }
      tables.Record(PromoteLookup(tx, input), before);
      if done {
        PromoteLookupMoment(h, before, input);
      }
    }

    /** The unlocked read of Promote and its version check. */
    method ReadForPromote(tx: TxId, input: PromoteInput, startedAt: Time) returns (read: Option<Record>, reply: Reply)
      requires tables.Valid() && tx in tables.txs && tables.txs[tx] == PromoteLookedUp(input, startedAt)
      modifies tables
      ensures tables.Valid() && tables.history == Then(old(tables.history), PromoteRead(tx))
      ensures tables.Contents() == old(tables.Contents())
      ensures read.Some? ==> tx in tables.txs && tables.txs[tx] == PromoteOpen(input, startedAt, read.value)
      ensures read == None ==> (tx !in tables.txs && reply != Refused(ConstraintViolation)
        && PromotedOrOvertaken(old(tables.history), Promotion(input, 0, NO_STAMP), tables.Contents(), reply)
        && PromotionAnswer(old(tables.Contents()), input, reply))
    {
      var before := tables.Snapshot();
      ghost var h := tables.history;
      read := tables.LoadRecord(input.tenantId, input.memoryId);
      reply := StillOpen;
      if read == None {
        reply := Refused(NotFound);
      } else if input.expectedVersion <= 0 || read.value.version != input.expectedVersion {
        read, reply := None, Refused(VersionConflict);
      }
      tables.Record(PromoteRead(tx), before);
      if read == None {
        PromoteReadMoment(h, before, tx);
      }
    }

    /** The writing half of a promotion, committed or rolled back. */
    method CommitPromotion(tx: TxId, world: World, input: PromoteInput, read: Record, startedAt: Time)
      returns (reply: Reply, ghost moment: History, ghost op: Op)
      requires tables.Valid() && tx in tables.txs && tables.txs[tx] == PromoteOpen(input, startedAt, read)
      modifies tables
      ensures tables.Valid() && tx !in tables.txs && moment == old(tables.history)
      ensures During(moment, moment, tables.history, tx)
      ensures op == Promotion(input, world.clock(0), Stamp(world.eventId(0), world.outboxId(0), startedAt))
      ensures PromotedOrOvertaken(moment, op, tables.Contents(), reply) && PromotionDecided(moment, input, reply, world)
    {
      moment := tables.history;
      var before, stamp := tables.Snapshot(), Stamp(world.eventId(0), world.outboxId(0), startedAt);
      op := Promotion(input, world.clock(0), stamp);
      reply := WritePromotedOrNothing(input, read, world.clock(0), stamp);
      PromoteCommitMoment(moment, before, tx, world.clock(0), stamp);
      if Unrecorded(before.db, input.tenantId, input.key) {
        PromotionCommitDecided(moment, before, op, tables.Contents(), reply);
      }
      tables.Record(PromoteCommit(tx, world.clock(0), stamp.eventId, stamp.outboxId), before);
    }

    method ReadAndPromote(tx: TxId, world: World, input: PromoteInput, startedAt: Time)
      returns (reply: Reply, ghost moment: History, ghost op: Op)
      requires tables.Valid() && tx in tables.txs && tables.txs[tx] == PromoteLookedUp(input, startedAt)
      modifies tables
      ensures tables.Valid() && tx !in tables.txs
      ensures During(moment, old(tables.history), tables.history, tx)
      ensures op.Promotion? && op.promote == input && PromotedOrOvertaken(moment, op, tables.Contents(), reply)
      ensures Draws(moment, op, tables.Contents(), reply, world) && PromotionDecided(moment, input, reply, world)
    {
      tables.Yield(tx, world.script(1));
      moment, op := tables.history, Promotion(input, 0, NO_STAMP);
      var read;
      read, reply := ReadForPromote(tx, input, startedAt);
      if read.Some? {
        tables.Yield(tx, world.script(2));
        ghost var earlier := moment;
        reply, moment, op := CommitPromotion(tx, world, input, read.value, startedAt);
        DuringLater(moment, Then(earlier, PromoteRead(tx)), old(tables.history), tables.history, tx);
      }
    }

    /** Turns a record episodic; a keyed call is replayed when its key is known. */
    method Promote(tx: TxId, world: World, input: PromoteInput) returns (reply: Reply, ghost moment: History, ghost op: Op)
      requires tables.Valid() && tx !in tables.txs
      modifies tables
      ensures tables.Valid() && tx !in tables.txs
      ensures During(moment, old(tables.history), tables.history, tx)
      ensures op.Promotion? && op.promote == input && PromotedOrOvertaken(moment, op, tables.Contents(), reply)
      ensures Draws(moment, op, tables.Contents(), reply, world) && PromotionDecided(moment, input, reply, world)
    {
      moment, op := tables.history, Promotion(input, 0, NO_STAMP);
      if input.tenantId == "" || input.memoryId == "" {
        reply := Refused(NotFound);
        return;
      }
      tables.Yield(tx, world.script(0));
      moment := tables.history;
      var startedAt, done := tables.now, false;
      done, reply := LookUpKey(tx, input);
      if !done {
        ghost var earlier := tables.history;
        reply, moment, op := ReadAndPromote(tx, world, input, startedAt);
        DuringLater(moment, earlier, old(tables.history), tables.history, tx);
      }
    }

    // ------------------------------------------------------------ deduplication

    /** Claims the winner slot for the candidate, or finds who has it. */
    method ClaimDedupe(tx: TxId, input: DedupeInput) returns (winnerId: Option<MemoryId>)
      requires tables.Valid() && tx !in tables.txs
      modifies tables
      ensures tables.Valid() && tables.history == Then(old(tables.history), DedupeClaim(tx, input))
      ensures winnerId == None ==> (tx !in tables.txs
        && Linearized(old(tables.history), Register(input), tables.Contents(), Resolved(input.candidateId, NoCollision))
        && Registered(old(tables.history), input, tables.Contents(), Resolved(input.candidateId, NoCollision)))
      ensures winnerId.Some? ==> (tables.Contents() == old(tables.Contents())
        && tx in tables.txs && tables.txs[tx] == Collided(input, old(tables.now), winnerId.value))
    {
      var before, scope := tables.Snapshot(), Scoped(input.tenantId, input.dedupeKey);
      var claimed := tables.InsertWinner(scope, input.candidateId);
      winnerId := if claimed.Some? then None else Some(tables.winners[scope]);
      tables.Record(DedupeClaim(tx, input), before);
    }

    /** Reads the loser, and checks its version. */
    method ReadDedupeLoser(tx: TxId, ghost world: World) returns (loser: Option<Record>, error: Error)
      requires tables.Valid() && tx in tables.txs && tables.txs[tx].Collided?
      modifies tables
      ensures tables.Valid() && tables.history == Then(old(tables.history), DedupeReadLoser(tx))
      ensures tables.Contents() == old(tables.Contents())
      ensures loser == None ==>
        tx !in tables.txs && ResolveRefused(tables.Contents(), old(tables.txs)[tx].dedupe, error, Register(old(tables.txs)[tx].dedupe), world)
      ensures var t := old(tables.txs)[tx];
        loser.Some? ==> tx in tables.txs && tables.txs[tx] == LoserRead(t.dedupe, t.startedAt, t.winnerId, loser.value)
    {
      var before, input := tables.Snapshot(), tables.txs[tx].dedupe;
      loser := tables.LoadRecord(input.tenantId, input.candidateId);
      error := NotFound;
      if loser.Some? && loser.value.version != input.candidateVersion {
        loser, error := None, VersionConflict;
      }
      RefusedReadCause(tables.history, before, tx, 0, world);
      tables.Record(DedupeReadLoser(tx), before);
    }

    /**
     * Tests the guard of the loser's UPDATE and reads the winner, which shows this
     * transaction's own tombstone when the candidate is the winner.
     */
    method ReadDedupeWinner(tx: TxId, now: Time, ghost world: World) returns (winner: Option<Record>, error: Error)
      requires tables.Valid() && tx in tables.txs && tables.txs[tx].LoserRead?
      modifies tables
      ensures tables.Valid() && tables.history == Then(old(tables.history), DedupeReadWinner(tx, now))
      ensures tables.Contents() == old(tables.Contents())
      ensures winner == None ==>
        tx !in tables.txs && ResolveRefused(tables.Contents(), old(tables.txs)[tx].dedupe, error, Register(old(tables.txs)[tx].dedupe), world)
      ensures var t := old(tables.txs)[tx];
        winner.Some? ==> (tx in tables.txs
          && tables.txs[tx] == CollapseOpen(t.dedupe, t.startedAt, t.winnerId, t.read, now, winner.value))
    {
      var before, t := tables.Snapshot(), tables.txs[tx];
      winner, error := None, VersionConflict;
      var row := tables.LoadRecord(t.dedupe.tenantId, t.dedupe.candidateId);
      if row.Some? && row.value.version == t.dedupe.candidateVersion {
        winner := tables.LoadRecord(t.dedupe.tenantId, t.winnerId);
        error := NotFound;
        if winner.Some? && t.winnerId == t.dedupe.candidateId {
          var tombstone := ApplyMutation(Delete, t.read, now);
          winner := Some(SetMutationColumns(winner.value, tombstone));
        }
      }
      RefusedReadCause(tables.history, before, tx, now, world);
      tables.Record(DedupeReadWinner(tx, now), before);
    }

    /** The loser's tombstone, then the winner's collapse event; when one fails the caller rolls back. */
    method WriteCollapsed(input: DedupeInput, winnerId: MemoryId, loser: Record, now: Time, winner: Record,
                          stamp: Stamp, collapse: Stamp) returns (reply: Reply)
      modifies tables`records, tables`events, tables`outbox
      ensures reply == WriteCollapse(old(tables.Contents()), input, winnerId, loser, now, winner, stamp, collapse).reply
      ensures !reply.Refused? ==>
        tables.Contents() == WriteCollapse(old(tables.Contents()), input, winnerId, loser, now, winner, stamp, collapse).db
    {
      reply := WriteMutated(MutationInput(input.tenantId, input.candidateId, input.candidateVersion, Delete), loser, now, stamp);
      if reply.Refused? {
        return;
      }
      var e := tables.InsertEventAndOutbox(winner, MemoryDedupeCollapsed, collapse, None, Some(input.candidateId));
      if e == Violation {
        return Refused(ConstraintViolation);
      }
      reply := Resolved(winnerId, if winner.pinned then CollapsedByPin else MergedExisting);
    }

    method WriteCollapsedOrNothing(input: DedupeInput, winnerId: MemoryId, loser: Record, now: Time, winner: Record,
                                   stamp: Stamp, collapse: Stamp) returns (reply: Reply)
      modifies tables
      ensures Result(tables.Contents(), reply)
        == WriteCollapse(old(tables.Contents()), input, winnerId, loser, now, winner, stamp, collapse)
      ensures tables.now == old(tables.now) && tables.txs == old(tables.txs) && tables.history == old(tables.history)
    {
      var saved := tables.Contents();
      reply := WriteCollapsed(input, winnerId, loser, now, winner, stamp, collapse);
      if reply.Refused? {
        tables.Restore(saved);
      }
    }

    /** The collision path's writes become visible together, or not at all. */
    method CommitCollapse(tx: TxId, world: World) returns (reply: Reply, ghost moment: History, ghost op: Op)
      requires tables.Valid() && tx in tables.txs && tables.txs[tx].CollapseOpen? && tables.txs[tx].at == world.clock(0)
      modifies tables
      ensures tables.Valid() && tx !in tables.txs && moment == old(tables.history) && DrawsCollapse(op, world)
      ensures During(moment, moment, tables.history, tx)
      ensures op.Collapse? && op.dedupe == old(tables.txs)[tx].dedupe
      ensures if reply.Refused? then
                tables.Contents() == old(tables.Contents())
                && ResolveRefused(tables.Contents(), old(tables.txs)[tx].dedupe, reply.error, op, world)
              else Collapsed(moment, op, tables.Contents(), reply)
    {
      moment := tables.history;
      var before, t := tables.Snapshot(), tables.txs[tx];
      var stamp := Stamp(world.eventId(0), world.outboxId(0), t.startedAt);
      var collapse := Stamp(world.eventId(1), world.outboxId(1), t.startedAt);
      op := Collapse(t.dedupe, t.winnerId, t.winner, t.at, stamp, collapse);
      reply := WriteCollapsedOrNothing(t.dedupe, t.winnerId, t.read, t.at, t.winner, stamp, collapse);
      if reply.Refused? {
        RefusedCommitCause(moment, before, tx, world);
      } else {
        CollapseCommitMoment(moment, before, tx, stamp, collapse);
      }
      tables.Record(DedupeCommit(tx, stamp.eventId, stamp.outboxId, collapse.eventId, collapse.outboxId), before);
    }

    /** The collision path from the loser's guard on. */
    method CollapseLoser(tx: TxId, world: World, input: DedupeInput) returns (reply: Reply, ghost moment: History, ghost op: Op)
      requires tables.Valid() && tx in tables.txs && tables.txs[tx].LoserRead? && tables.txs[tx].dedupe == input
      modifies tables
      ensures tables.Valid() && tx !in tables.txs
      ensures During(moment, old(tables.history), tables.history, tx) && After(moment).Some?
      ensures reply.Refused? ==>
        tables.Contents() == After(moment).value.db && ResolveRefused(tables.Contents(), input, reply.error, op, world)
      ensures !reply.Refused? ==>
        op.Collapse? && op.dedupe == input && DrawsCollapse(op, world) && Collapsed(moment, op, tables.Contents(), reply)
    {
      tables.Yield(tx, world.script(2));
      moment, op := tables.history, Register(input);
      var winner, error := ReadDedupeWinner(tx, world.clock(0), world);
      if winner == None {
        reply := Refused(error);
      } else {
        ghost var earlier := tables.history;
        tables.Yield(tx, world.script(3));
        reply, moment, op := CommitCollapse(tx, world);
        DuringLater(moment, earlier, old(tables.history), tables.history, tx);
      }
    }

    /** The collision path: the candidate is the loser. */
    method ResolveCollision(tx: TxId, world: World, input: DedupeInput) returns (reply: Reply, ghost moment: History, ghost op: Op)
      requires tables.Valid() && tx in tables.txs && tables.txs[tx].Collided? && tables.txs[tx].dedupe == input
      modifies tables
      ensures tables.Valid() && tx !in tables.txs
      ensures During(moment, old(tables.history), tables.history, tx) && After(moment).Some?
      ensures reply.Refused? ==>
        tables.Contents() == After(moment).value.db && ResolveRefused(tables.Contents(), input, reply.error, op, world)
      ensures !reply.Refused? ==>
        op.Collapse? && op.dedupe == input && DrawsCollapse(op, world) && Collapsed(moment, op, tables.Contents(), reply)
    {
      tables.Yield(tx, world.script(1));
      moment, op := tables.history, Register(input);
      var loser, error := ReadDedupeLoser(tx, world);
      if loser == None {
        reply := Refused(error);
      } else {
        ghost var earlier := tables.history;
        reply, moment, op := CollapseLoser(tx, world, input);
        DuringLater(moment, earlier, old(tables.history), tables.history, tx);
      }
    }

    /**
     * The first candidate of a key becomes its winner; a later one is tombstoned in favour
     * of the winner, all in one transaction. A refused call leaves every table as it was.
     */
    method ResolveDedupe(tx: TxId, world: World, input: DedupeInput) returns (reply: Reply, ghost moment: History, ghost op: Op)
      requires tables.Valid() && tx !in tables.txs
      modifies tables
      ensures tables.Valid() && tx !in tables.txs
      ensures During(moment, old(tables.history), tables.history, tx) && After(moment).Some?
      ensures reply.Refused? ==>
        tables.Contents() == After(moment).value.db && ResolveRefused(tables.Contents(), input, reply.error, op, world)
      ensures !reply.Refused? ==>
        (op == Register(input) && Linearized(moment, op, tables.Contents(), reply)
         && Registered(moment, input, tables.Contents(), reply))
        || (op.Collapse? && op.dedupe == input && DrawsCollapse(op, world) && Collapsed(moment, op, tables.Contents(), reply))
    {
      tables.Yield(tx, world.script(0));
      moment, op := tables.history, Register(input);
      var winnerId := ClaimDedupe(tx, input);
      if winnerId == None {
        reply := Resolved(input.candidateId, NoCollision);
      } else {
        ghost var claimed := tables.history;
        reply, moment, op := ResolveCollision(tx, world, input);
        DuringLater(moment, claimed, old(tables.history), tables.history, tx);
      }
    }

    // ------------------------------------------------------------------ access

    /** The tenant's rows named have one more hit and this access time; everything else is as it was. */
    static ghost predicate RowsAccessed(t: map<MemoryId, Record>, t': map<MemoryId, Record>, tenantId: TenantId,
                                        ids: seq<MemoryId>, at: Time)
    {
      && t'.Keys == t.Keys
      && forall m :: m in t ==>
           t'[m] == if t[m].tenantId == tenantId && m in ids then
                      t[m].(hitCount := t[m].hitCount + 1, lastAccessAt := Some(at))
                    else t[m]
    }

    static lemma TouchAccesses(db: Db, tenantId: TenantId, ids: seq<MemoryId>, at: Time)
      ensures var db' := Touch(db, tenantId, (set m | m in ids), at);
        RowsAccessed(db.records, db'.records, tenantId, ids, at) && db' == db.(records := db'.records)
    {
    }

    /** MarkAccess: each named record counts once, however often the request repeats it. */
    method MarkAccess(tenantId: TenantId, memoryIds: seq<MemoryId>, accessedAt: Time)
      requires tables.Valid()
      modifies tables
      ensures tables.Valid()
      ensures tables.Contents() == Atomic(old(tables.Contents()), Access(tenantId, (set m | m in memoryIds), accessedAt)).db
      ensures RowsAccessed(old(tables.records), tables.records, tenantId, memoryIds, accessedAt)
      ensures tables.Contents() == old(tables.Contents()).(records := tables.records)
      ensures tables.txs == old(tables.txs) && tables.now == old(tables.now)
      ensures tables.history == if memoryIds == [] then old(tables.history)
        else Then(old(tables.history), StoreModel.Action.MarkAccess(tenantId, memoryIds, accessedAt))
    {
      if |memoryIds| == 0 {
        assert Touch(tables.Contents(), tenantId, {}, accessedAt).records == tables.records;
        return;
      }
      var before := tables.Snapshot();
      TouchAccesses(before.db, tenantId, memoryIds, accessedAt);
      var unique := Deduplicate(memoryIds);
      tables.UpdateAccessed(tenantId, unique, accessedAt);
      assert (set m | m in unique) == (set m | m in memoryIds);
      tables.Record(StoreModel.Action.MarkAccess(tenantId, memoryIds, accessedAt), before);
    }

    /** The ids without their repetitions, in the order they first appear. */
    static method Deduplicate(ids: seq<MemoryId>) returns (unique: seq<MemoryId>)
      ensures forall i, j :: 0 <= i < j < |unique| ==> unique[i] != unique[j]
      ensures forall id :: id in unique <==> id in ids
      ensures unique == FirstOccurrences(ids)
    {
      unique := [];
      var seen: set<MemoryId> := {};
      for i := 0 to |ids|
        invariant unique == FirstOccurrences(ids[..i])
        invariant forall id :: id in seen <==> id in unique
        invariant forall id :: id in unique <==> id in ids[..i]
        invariant forall i, j :: 0 <= i < j < |unique| ==> unique[i] != unique[j]
      {
        assert ids[..i + 1][..i] == ids[..i];
        if ids[i] !in seen {
          seen := seen + {ids[i]};
          unique := unique + [ids[i]];
        }
      }
      assert ids[..|ids|] == ids;
    }

    static ghost function FirstOccurrences(ids: seq<MemoryId>): seq<MemoryId> {
      if ids == [] then []
      else FirstOccurrences(ids[..|ids| - 1]) + if ids[|ids| - 1] in ids[..|ids| - 1] then [] else [ids[|ids| - 1]]
    }

    /** A read outside any transaction; deleted and disabled records are not found. */
    method GetRecord(tenantId: TenantId, memoryId: MemoryId) returns (record: Option<Record>)
      ensures record.Some? <==>
        memoryId in tables.records && tables.records[memoryId].tenantId == tenantId
        && !tables.records[memoryId].deleted && !tables.records[memoryId].disabled
      ensures record.Some? ==> record.value == tables.records[memoryId]
    {
      record := tables.LoadRecord(tenantId, memoryId);
      if record.Some? && (record.value.deleted || record.value.disabled) {
        record := None;
      }
    }
  }
}
