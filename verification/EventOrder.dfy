/** Which event the session listing reports for a record, next to which was appended last. */
module EventOrder {
  import opened Common
  import opened Entities
  import opened StoreModel
  import opened StoreInvariants
  import opened StoreHistory

  ghost predicate Added(db: Db, db': Db, k: EventKey) {
    k !in db.events && k in db'.events
  }

  /** The listing takes one row; it is sure to be this one when every other event of the record comes strictly before. */
  ghost predicate IsSoleLatest(db: Db, k: EventKey) {
    && k in db.events
    && forall j :: j in db.events && j.memoryId == k.memoryId && j != k ==>
         j.version < k.version || (j.version == k.version && db.events[j].createdAt < db.events[k].createdAt)
  }

  lemma NewVersionIsLatest(db: Db, row: Record, shown: Record, t: EventType, stamp: Stamp, key: Option<string>)
    requires LogSound(db) && MayStep(db, row, shown, t, stamp)
    ensures var db' := Stepped(db, row, shown, t, stamp, key);
      forall k :: Added(db, db', k) ==> IsSoleLatest(db', k)
  {
    forall j | j in db.events && j.memoryId == row.memoryId ensures j.version < row.version {
      assert EventSound(db, j);
    }
  }

  lemma WriteIsListed(db: Db, input: WriteInput, uuid: MemoryId, at: Time, stamp: Stamp, k: EventKey)
    requires LogSound(db) && Added(db, WriteNew(db, input, uuid, at, stamp).db, k)
    ensures IsSoleLatest(WriteNew(db, input, uuid, at, stamp).db, k)
  {
    InsertIsAStep(db, input, uuid, at, stamp);
    var r := NewRecord(input, uuid, at);
    NewVersionIsLatest(db, r, r, MemoryCreated, stamp, Some(input.key));
    var stepped := Stepped(db, r, r, MemoryCreated, stamp, Some(input.key));
    assert Added(db, stepped, k) && IsSoleLatest(stepped, k);
  }

  lemma MutationIsListed(db: Db, input: MutationInput, read: Record, at: Time, stamp: Stamp, k: EventKey)
    requires LogSound(db) && ReadFor(db, read, input.tenantId, input.memoryId, input.expectedVersion)
    requires Added(db, WriteMutation(db, input, read, at, stamp).db, k)
    ensures IsSoleLatest(WriteMutation(db, input, read, at, stamp).db, k)
  {
    MutationIsAStep(db, input, read, at, stamp);
    NewVersionIsLatest(db, MutatedRow(db, input, read, at), Mutate(input.mutation, read, at), MutationEvent(input.mutation),
                       stamp, None);
  }

  lemma PromotionIsListed(db: Db, input: PromoteInput, read: Record, at: Time, stamp: Stamp, k: EventKey)
    requires LogSound(db) && ReadFor(db, read, input.tenantId, input.memoryId, input.expectedVersion)
    requires Added(db, WritePromotion(db, input, read, at, stamp).db, k)
    ensures IsSoleLatest(WritePromotion(db, input, read, at, stamp).db, k)
  {
    PromotionIsAStep(db, input, read, at, stamp);
    var to := PromoteRecord(read, input.sourceEventId, at);
    var row := SetPromotionColumns(db.records[input.memoryId], to);
    NewVersionIsLatest(db, row, to, MemoryPromoted, stamp, None);
    var stepped := Stepped(db, row, to, MemoryPromoted, stamp, None);
    assert Added(db, stepped, k) && IsSoleLatest(stepped, k);
  }

  /** The event of a write, a mutation or a promotion is the one listed when it is appended, ties excluded. */
  lemma StepEventIsListed(h: History, s: State, a: Action, k: EventKey)
    requires After(h) == Some(s) && Enabled(s, a) && (a.WriteCommit? || a.MutateCommit? || a.PromoteCommit?)
    requires Added(s.db, Outcome(s, a).db, k)
    ensures IsSoleLatest(Outcome(s, a).db, k)
  {
    Reachable(h, s);
    var t := s.txs[a.tx];
    assert TxSound(s.db, t);
    var stamp := Stamp(a.eventId, a.outboxId, t.startedAt);
    if a.WriteCommit? {
      WriteIsListed(s.db, t.write, a.uuid, a.at, stamp, k);
    } else if a.MutateCommit? {
      MutationIsListed(s.db, t.mutate, t.read, a.at, stamp, k);
    } else {
      PromotionIsListed(s.db, t.promote, t.read, a.at, stamp, k);
    }
  }

  /** The listing rule among the events of one version that may be the newest. */
  lemma LatestIff(db: Db, k: EventKey)
    requires LogSound(db) && k in db.events
    ensures IsLatest(db, k) <==>
      k.memoryId in db.records && k.version == db.records[k.memoryId].version
      && forall j :: j in db.events && j.memoryId == k.memoryId && j.version == k.version ==>
           db.events[j].createdAt <= db.events[k].createdAt
  {
    assert EventSound(db, k);
    var m, v := k.memoryId, db.records[k.memoryId].version;
    assert RecordSound(db, m);
    assert HasStep(db, m, v);
    var t: EventType :| t != MemoryDedupeCollapsed && EventKey(m, v, t) in db.events;
    assert EventKey(m, v, t).version == v;
    forall j | j in db.events && j.memoryId == m ensures j.version <= v {
      assert EventSound(db, j);
    }
  }

  /**
   * A collapse event may be the one listed when it is appended if and only if the version it
   * shows is the winner's at the commit and the event that made that version is not stamped
   * later than the collapse, whose stamp is the start of its transaction.
   */
  lemma CollapseMayBeListedIff(h: History, s: State, a: Action)
    requires After(h) == Some(s) && a.DedupeCommit? && Enabled(s, a) && !Outcome(s, a).reply.Refused?
    ensures var t, db' := s.txs[a.tx], Outcome(s, a).db;
      var collapse := EventKey(t.winnerId, t.winner.version, MemoryDedupeCollapsed);
      && Added(s.db, db', collapse) && t.winnerId in db'.records
      && (IsLatest(db', collapse) <==>
            t.winner.version == db'.records[t.winnerId].version
            && forall u: EventType :: u != MemoryDedupeCollapsed && EventKey(t.winnerId, t.winner.version, u) in db'.events ==>
                 db'.events[EventKey(t.winnerId, t.winner.version, u)].createdAt <= t.startedAt)
  {
    Reachable(h, s);
    StepKeepsSound(s, a);
    var t, db' := s.txs[a.tx], Outcome(s, a).db;
    assert TxSound(s.db, t);
    CollapseIsAdded(s.db, t, Stamp(a.eventId, a.outboxId, t.startedAt), Stamp(a.collapseEventId, a.collapseOutboxId, t.startedAt));
    var collapse := EventKey(t.winnerId, t.winner.version, MemoryDedupeCollapsed);
    LatestIff(db', collapse);
    assert EventSound(db', collapse);
  }

  lemma CollapseIsAdded(db: Db, t: Tx, stamp: Stamp, collapse: Stamp)
    requires t.CollapseOpen? && t.winner.memoryId == t.winnerId
    requires !WriteCollapse(db, t.dedupe, t.winnerId, t.read, t.at, t.winner, stamp, collapse).reply.Refused?
    ensures var db', k := WriteCollapse(db, t.dedupe, t.winnerId, t.read, t.at, t.winner, stamp, collapse).db,
                          EventKey(t.winnerId, t.winner.version, MemoryDedupeCollapsed);
      Added(db, db', k) && db'.events[k].createdAt == collapse.startedAt
  {
  }

  // ------------------------------------------------------------------------- ties

  lemma SoleLatestIff(db: Db, k: EventKey)
    requires LogSound(db) && k in db.events
    ensures IsSoleLatest(db, k) <==>
      k.memoryId in db.records && k.version == db.records[k.memoryId].version
      && forall j :: j in db.events && j.memoryId == k.memoryId && j.version == k.version && j != k ==>
           db.events[j].createdAt < db.events[k].createdAt
  {
    LatestIff(db, k);
    assert EventSound(db, k);
    forall j | j in db.events && j.memoryId == k.memoryId
      ensures k.memoryId in db.records && j.version <= db.records[k.memoryId].version
    {
      assert EventSound(db, j);
    }
    if IsSoleLatest(db, k) {
      assert IsLatest(db, k);
    }
  }

  /**
   * A collapse event is the only one the listing can return when it is appended if and only
   * if the version it shows is the winner's at the commit and the event that made that
   * version is stamped strictly earlier; on equal stamps either may be returned.
   */
  lemma CollapseIsSoleListedIff(h: History, s: State, a: Action)
    requires After(h) == Some(s) && a.DedupeCommit? && Enabled(s, a) && !Outcome(s, a).reply.Refused?
    ensures var t, db' := s.txs[a.tx], Outcome(s, a).db;
      var collapse := EventKey(t.winnerId, t.winner.version, MemoryDedupeCollapsed);
      && Added(s.db, db', collapse) && t.winnerId in db'.records
      && (IsSoleLatest(db', collapse) <==>
            t.winner.version == db'.records[t.winnerId].version
            && forall u: EventType :: u != MemoryDedupeCollapsed && EventKey(t.winnerId, t.winner.version, u) in db'.events ==>
                 db'.events[EventKey(t.winnerId, t.winner.version, u)].createdAt < t.startedAt)
  {
    CollapseMayBeListedIff(h, s, a);
    Reachable(h, s);
    StepKeepsSound(s, a);
    var t, db' := s.txs[a.tx], Outcome(s, a).db;
    assert TxSound(s.db, t);
    CollapseIsAdded(s.db, t, Stamp(a.eventId, a.outboxId, t.startedAt), Stamp(a.collapseEventId, a.collapseOutboxId, t.startedAt));
    SoleLatestIff(db', EventKey(t.winnerId, t.winner.version, MemoryDedupeCollapsed));
  }

  /** The step event and the collapse of a record's newest version, when they carry one stamp. */
  lemma TiedEvents(db: Db, collapse: EventKey, step: EventKey)
    requires LogSound(db) && collapse in db.events && step in db.events && IsStep(step)
    requires collapse == EventKey(step.memoryId, step.version, MemoryDedupeCollapsed)
    requires step.memoryId in db.records && db.records[step.memoryId].version == step.version
    requires db.events[collapse].createdAt == db.events[step].createdAt
    ensures IsLatest(db, collapse) && IsLatest(db, step) && !IsSoleLatest(db, collapse) && !IsSoleLatest(db, step)
  {
    forall j | j in db.events && j.memoryId == step.memoryId && j.version == step.version ensures j == collapse || j == step {
      assert PairSound(db, j, step);
    }
    LatestIff(db, collapse);
    LatestIff(db, step);
  }

  /** When the candidate is the winner itself, tombstone and collapse carry one stamp: both may be listed, neither surely. */
  lemma SelfCollapseTies(h: History, s: State, a: Action)
    requires After(h) == Some(s) && a.DedupeCommit? && Enabled(s, a) && !Outcome(s, a).reply.Refused?
    requires s.txs[a.tx].winnerId == s.txs[a.tx].dedupe.candidateId
    ensures var t, db' := s.txs[a.tx], Outcome(s, a).db;
      var collapse, deletion := EventKey(t.winnerId, t.winner.version, MemoryDedupeCollapsed),
                                EventKey(t.winnerId, t.winner.version, MemoryDeleted);
      && IsLatest(db', collapse) && IsLatest(db', deletion)
      && !IsSoleLatest(db', collapse) && !IsSoleLatest(db', deletion)
  {
    Reachable(h, s);
    StepKeepsSound(s, a);
    var t, db' := s.txs[a.tx], Outcome(s, a).db;
    assert TxSound(s.db, t);
    SelfCollapseEvents(s.db, t, Stamp(a.eventId, a.outboxId, t.startedAt),
                       Stamp(a.collapseEventId, a.collapseOutboxId, t.startedAt));
    TiedEvents(db', EventKey(t.winnerId, t.winner.version, MemoryDedupeCollapsed),
               EventKey(t.winnerId, t.winner.version, MemoryDeleted));
  }

  lemma SelfCollapseEvents(db: Db, t: Tx, stamp: Stamp, collapse: Stamp)
    requires DbSound(db) && t.CollapseOpen? && TxSound(db, t) && t.winnerId == t.dedupe.candidateId
    requires stamp.startedAt == collapse.startedAt
    requires !WriteCollapse(db, t.dedupe, t.winnerId, t.read, t.at, t.winner, stamp, collapse).reply.Refused?
    ensures var db' := WriteCollapse(db, t.dedupe, t.winnerId, t.read, t.at, t.winner, stamp, collapse).db;
      var k, d := EventKey(t.winnerId, t.winner.version, MemoryDedupeCollapsed), EventKey(t.winnerId, t.winner.version, MemoryDeleted);
      && k in db'.events && d in db'.events && db'.events[k].createdAt == db'.events[d].createdAt == stamp.startedAt
      && t.winnerId in db'.records && db'.records[t.winnerId].version == t.winner.version
  {
    MutationIsAStep(db, LoserInput(t.dedupe), t.read, t.at, stamp);
  }
}
