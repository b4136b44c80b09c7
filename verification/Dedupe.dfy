/** The dedupe index: one winner per key for all time, and what a collision does. */
module Dedupe {
  import opened Common
  import opened Entities
  import opened StoreModel
  import opened StoreInvariants
  import opened StoreHistory

  /** The history ends with a successful resolution of this key. */
  ghost predicate Resolves(h: History, scope: Scoped, winnerId: MemoryId, action: DedupeAction) {
    && h.Then? && After(h).Some? && (h.last.DedupeClaim? || h.last.DedupeCommit?)
    && ScopeOf(After(h.before).value, h.last) == scope
    && Outcome(After(h.before).value, h.last).reply == Resolved(winnerId, action)
  }

  function ScopeOf(s: State, a: Action): Scoped
    requires Enabled(s, a) && (a.DedupeClaim? || a.DedupeCommit?)
  {
    var input := if a.DedupeClaim? then a.dedupe else s.txs[a.tx].dedupe;
    Scoped(input.tenantId, input.dedupeKey)
  }

  lemma ResolutionNamesRegistered(h: History, scope: Scoped, winnerId: MemoryId, action: DedupeAction)
    requires Resolves(h, scope, winnerId, action)
    ensures scope in After(h).value.db.winners && After(h).value.db.winners[scope] == winnerId
    ensures action == NoCollision <==> scope !in After(h.before).value.db.winners
  {
    var s := After(h.before).value;
    Reachable(h.before, s);
    if h.last.DedupeCommit? {
      assert TxSound(s.db, s.txs[h.last.tx]);
    }
  }

  /** All successful resolutions of a key name the same winner, at any two moments. */
  lemma OneWinnerForAllTime(h1: History, h2: History, scope: Scoped, w1: MemoryId, a1: DedupeAction,
                            w2: MemoryId, a2: DedupeAction)
    requires Resolves(h1, scope, w1, a1) && Resolves(h2, scope, w2, a2) && Continues(h2, h1)
    ensures w1 == w2
  {
    ResolutionNamesRegistered(h1, scope, w1, a1);
    ResolutionNamesRegistered(h2, scope, w2, a2);
    RunGrows(h1, h2);
  }

  lemma WinnerStays(earlier: History, later: History, scope: Scoped)
    requires Continues(later, earlier) && After(later).Some? && After(earlier).Some?
    requires scope in After(earlier).value.db.winners
    ensures scope in After(later).value.db.winners
    ensures After(later).value.db.winners[scope] == After(earlier).value.db.winners[scope]
  {
    RunGrows(earlier, later);
  }

  /** At most one call ever reports no collision for a key. */
  lemma OneFirstWriter(h1: History, h2: History, scope: Scoped, w1: MemoryId, w2: MemoryId)
    requires Resolves(h1, scope, w1, NoCollision) && Resolves(h2, scope, w2, NoCollision) && Continues(h2, h1)
    ensures h1 == h2
  {
    ResolutionNamesRegistered(h1, scope, w1, NoCollision);
    ResolutionNamesRegistered(h2, scope, w2, NoCollision);
    if h1 != h2 {
      WinnerStays(h1, h2.before, scope);
    }
  }

  lemma OnlyClaimsRegister(s: State, a: Action, scope: Scoped)
    requires Enabled(s, a) && scope !in s.db.winners && scope in Outcome(s, a).db.winners
    ensures a.DedupeClaim? && ScopeOf(s, a) == scope
    ensures Outcome(s, a).reply == Resolved(Outcome(s, a).db.winners[scope], NoCollision)
  {
  }

  /** And whenever a winner is registered, one call has: so exactly one, before any collision. */
  lemma {:induction false} SomeFirstWriter(h: History, scope: Scoped) returns (first: History)
    requires After(h).Some? && scope in After(h).value.db.winners
    ensures Continues(h, first) && Resolves(first, scope, After(h).value.db.winners[scope], NoCollision)
  {
    var s := After(h.before).value;
    if scope in s.db.winners {
      first := SomeFirstWriter(h.before, scope);
      WinnerStays(h.before, h, scope);
    } else {
      OnlyClaimsRegister(s, h.last, scope);
      first := h;
    }
  }

  // ------------------------------------------------------------ the collision path

  /** The ids drawn for a collision have never been used. */
  ghost predicate FreshIds(db: Db, stamp: Stamp, collapse: Stamp) {
    && (forall k :: k in db.events ==>
          db.events[k].eventId != stamp.eventId && db.events[k].eventId != collapse.eventId)
    && stamp.eventId != collapse.eventId
    && stamp.outboxId !in db.outbox && collapse.outboxId !in db.outbox && stamp.outboxId != collapse.outboxId
  }

  function TombstoneStamp(t: Tx, a: Action): Stamp
    requires a.DedupeCommit?
  {
    Stamp(a.eventId, a.outboxId, t.startedAt)
  }

  function CollapseStamp(t: Tx, a: Action): Stamp
    requires a.DedupeCommit?
  {
    Stamp(a.collapseEventId, a.collapseOutboxId, t.startedAt)
  }

  /** The tombstone of the loser goes through exactly when its version guard holds. */
  lemma TombstoneSucceedsIff(db: Db, t: Tx, stamp: Stamp)
    requires DbSound(db) && t.CollapseOpen? && TxSound(db, t)
    requires stamp.outboxId !in db.outbox && forall k :: k in db.events ==> db.events[k].eventId != stamp.eventId
    ensures !WriteMutation(db, LoserInput(t.dedupe), t.read, t.at, stamp).reply.Refused?
      <==> db.records[t.dedupe.candidateId].version == t.dedupe.candidateVersion
  {
    var m := t.dedupe.candidateId;
    assert RecordSound(db, m);
    if db.records[m].version == t.dedupe.candidateVersion {
      KnownNewestIsRow(db, t.read);
      var key := EventKey(m, t.dedupe.candidateVersion + 1, MemoryDeleted);
      assert EventSound(db, key);
      assert key !in db.events;
    }
  }

  /**
   * A collision commits exactly when the loser still has the version the caller saw and the
   * winner has not been collapsed into at the version this transaction read; the first
   * condition covers the losers that moved on, the second every repeated collision at an
   * unchanged winner.
   */
  lemma CollisionSucceedsIff(h: History, s: State, a: Action)
    requires After(h) == Some(s) && a.DedupeCommit? && Enabled(s, a)
    requires FreshIds(s.db, TombstoneStamp(s.txs[a.tx], a), CollapseStamp(s.txs[a.tx], a))
    ensures var t := s.txs[a.tx];
      t.dedupe.candidateId in s.db.records &&
      (Outcome(s, a).reply.Resolved? <==>
        (s.db.records[t.dedupe.candidateId].version == t.dedupe.candidateVersion
         && EventKey(t.winner.memoryId, t.winner.version, MemoryDedupeCollapsed) !in s.db.events))
    ensures !Outcome(s, a).reply.Resolved? ==> Outcome(s, a).reply.Refused? && Outcome(s, a).db == s.db
  {
    Reachable(h, s);
    var t := s.txs[a.tx];
    assert TxSound(s.db, t);
    TombstoneSucceedsIff(s.db, t, TombstoneStamp(t, a));
  }

  /** A second collapse into a winner that has not changed since the first is refused, and changes nothing. */
  lemma RepeatedCollapseIsRefused(h1: History, h2: History, scope: Scoped, w: MemoryId, a1: DedupeAction)
    requires Resolves(h1, scope, w, a1) && h1.last.DedupeCommit?
    requires h2.Then? && Continues(h2.before, h1) && After(h2).Some? && h2.last.DedupeCommit?
    requires var t1, t2 := After(h1.before).value.txs[h1.last.tx], After(h2.before).value.txs[h2.last.tx];
      t2.winnerId == w && t2.winner.version == t1.winner.version
    ensures Outcome(After(h2.before).value, h2.last).reply.Refused?
    ensures After(h2).value.db == After(h2.before).value.db
  {
    var t1, t2 := After(h1.before).value.txs[h1.last.tx], After(h2.before).value.txs[h2.last.tx];
    ResolvedCollapseIsLogged(h1, scope, w, a1);
    EventStays(h1, h2.before, EventKey(w, t1.winner.version, MemoryDedupeCollapsed));
    LoggedCollapseRefuses(h2);
  }

  lemma ResolvedCollapseIsLogged(h: History, scope: Scoped, w: MemoryId, action: DedupeAction)
    requires Resolves(h, scope, w, action) && h.last.DedupeCommit?
    ensures EventKey(w, After(h.before).value.txs[h.last.tx].winner.version, MemoryDedupeCollapsed) in After(h).value.db.events
  {
    var s := After(h.before).value;
    var t := s.txs[h.last.tx];
    Reachable(h.before, s);
    assert TxSound(s.db, t);
    CollapseIsLogged(s.db, t, TombstoneStamp(t, h.last), CollapseStamp(t, h.last));
  }

  lemma LoggedCollapseRefuses(h: History)
    requires h.Then? && After(h).Some? && h.last.DedupeCommit?
    requires var s := After(h.before).value; var t := s.txs[h.last.tx];
      EventKey(t.winnerId, t.winner.version, MemoryDedupeCollapsed) in s.db.events
    ensures Outcome(After(h.before).value, h.last).reply.Refused?
    ensures After(h).value.db == After(h.before).value.db
  {
    var s := After(h.before).value;
    var t := s.txs[h.last.tx];
    Reachable(h.before, s);
    assert TxSound(s.db, t);
    CollapsedKeyRefuses(s.db, t, TombstoneStamp(t, h.last), CollapseStamp(t, h.last));
  }

  lemma CollapseIsLogged(db: Db, t: Tx, stamp: Stamp, collapse: Stamp)
    requires t.CollapseOpen?
    requires !WriteCollapse(db, t.dedupe, t.winnerId, t.read, t.at, t.winner, stamp, collapse).reply.Refused?
    ensures EventKey(t.winner.memoryId, t.winner.version, MemoryDedupeCollapsed)
      in WriteCollapse(db, t.dedupe, t.winnerId, t.read, t.at, t.winner, stamp, collapse).db.events
  {
  }

  lemma EventStays(earlier: History, later: History, key: EventKey)
    requires Continues(later, earlier) && After(later).Some? && After(earlier).Some?
    requires key in After(earlier).value.db.events
    ensures key in After(later).value.db.events
  {
    RunGrows(earlier, later);
  }

  lemma CollapsedKeyRefuses(db: Db, t: Tx, stamp: Stamp, collapse: Stamp)
    requires t.CollapseOpen? && EventKey(t.winner.memoryId, t.winner.version, MemoryDedupeCollapsed) in db.events
    ensures WriteCollapse(db, t.dedupe, t.winnerId, t.read, t.at, t.winner, stamp, collapse).reply.Refused?
    ensures WriteCollapse(db, t.dedupe, t.winnerId, t.read, t.at, t.winner, stamp, collapse).db == db
  {
  }

  /**
   * The writes of a collision, in full: the candidate's row gets its tombstone and its next
   * version and no other row changes; the log gains the deletion and the collapse, the
   * outbox one row for each; nothing else is written.
   */
  ghost predicate CollisionWrites(db: Db, db': Db, t: Tx, o: OutboxId, co: OutboxId)
    requires t.CollapseOpen?
  {
    var loser := t.dedupe.candidateId;
    var deletion := EventKey(loser, t.dedupe.candidateVersion + 1, MemoryDeleted);
    var collapse := EventKey(t.winnerId, t.winner.version, MemoryDedupeCollapsed);
    && loser in db.records
    && db'.records == db.records[loser := db.records[loser].(deleted := true, deletedAt := Some(t.at),
                                  updatedAt := t.at, version := t.dedupe.candidateVersion + 1)]
    && deletion !in db.events && collapse !in db.events
    && db'.events.Keys == db.events.Keys + {deletion, collapse}
    && db'.events[collapse].loser == Some(loser)
    && o !in db.outbox && co !in db.outbox && o != co
    && db'.outbox.Keys == db.outbox.Keys + {o, co}
    && db'.idempotency == db.idempotency && db'.winners == db.winners
  }

  /** Each of the two outbox rows carries its event. */
  ghost predicate CollisionAnnounced(db': Db, t: Tx, o: OutboxId, co: OutboxId)
    requires t.CollapseOpen?
  {
    && Carries(db', o, EventKey(t.dedupe.candidateId, t.dedupe.candidateVersion + 1, MemoryDeleted))
    && Carries(db', co, EventKey(t.winnerId, t.winner.version, MemoryDedupeCollapsed))
  }

  lemma CollapseAnnounces(db: Db, t: Tx, stamp: Stamp, collapse: Stamp)
    requires LogSound(db) && t.CollapseOpen? && TxSound(db, t)
    requires !WriteCollapse(db, t.dedupe, t.winnerId, t.read, t.at, t.winner, stamp, collapse).reply.Refused?
    ensures CollisionAnnounced(WriteCollapse(db, t.dedupe, t.winnerId, t.read, t.at, t.winner, stamp, collapse).db,
                               t, stamp.outboxId, collapse.outboxId)
  {
    MutationIsAStep(db, LoserInput(t.dedupe), t.read, t.at, stamp);
  }

  lemma CollapseWrites(db: Db, t: Tx, stamp: Stamp, collapse: Stamp)
    requires LogSound(db) && t.CollapseOpen? && TxSound(db, t)
    requires !WriteCollapse(db, t.dedupe, t.winnerId, t.read, t.at, t.winner, stamp, collapse).reply.Refused?
    ensures CollisionWrites(db, WriteCollapse(db, t.dedupe, t.winnerId, t.read, t.at, t.winner, stamp, collapse).db,
                            t, stamp.outboxId, collapse.outboxId)
  {
    MutationIsAStep(db, LoserInput(t.dedupe), t.read, t.at, stamp);
  }

  /** A resolved collision names the winner and makes exactly those writes, each event with its outbox row. */
  lemma CollisionEffect(h: History, s: State, a: Action)
    requires After(h) == Some(s) && a.DedupeCommit? && Enabled(s, a) && Outcome(s, a).reply.Resolved?
    ensures Outcome(s, a).reply.winnerId == s.txs[a.tx].winnerId
    ensures CollisionWrites(s.db, Outcome(s, a).db, s.txs[a.tx], a.outboxId, a.collapseOutboxId)
    ensures CollisionAnnounced(Outcome(s, a).db, s.txs[a.tx], a.outboxId, a.collapseOutboxId)
  {
    Reachable(h, s);
    var t := s.txs[a.tx];
    assert TxSound(s.db, t);
    CollapseWrites(s.db, t, TombstoneStamp(t, a), CollapseStamp(t, a));
    CollapseAnnounces(s.db, t, TombstoneStamp(t, a), CollapseStamp(t, a));
  }

  /** What a resolved collision reports, by whether this winner is pinned. */
  ghost predicate ReportsPin(reply: Reply, pinned: bool) {
    && reply.Resolved?
    && (reply.action == CollapsedByPin <==> pinned)
    && (reply.action == MergedExisting <==> !pinned)
  }

  lemma CollapseReportsPin(db: Db, t: Tx, stamp: Stamp, collapse: Stamp)
    requires DbSound(db) && t.CollapseOpen? && TxSound(db, t)
    requires !WriteCollapse(db, t.dedupe, t.winnerId, t.read, t.at, t.winner, stamp, collapse).reply.Refused?
    ensures var reply := WriteCollapse(db, t.dedupe, t.winnerId, t.read, t.at, t.winner, stamp, collapse).reply;
      && ReportsPin(reply, t.winner.pinned) && reply.winnerId == t.winnerId && t.winnerId in db.records
      && (t.winnerId == t.dedupe.candidateId || db.records[t.winnerId].version == t.winner.version ==>
            ReportsPin(reply, db.records[t.winnerId].pinned))
  {
    MutationIsAStep(db, LoserInput(t.dedupe), t.read, t.at, stamp);
    if t.winnerId != t.dedupe.candidateId && db.records[t.winnerId].version == t.winner.version {
      KnownNewestIsRow(db, t.winner);
    }
  }

  /**
   * A resolved collision is reported as a collapse by pin if and only if the winner it read
   * is pinned, and as a merge otherwise. While the winner has not moved on, or is the
   * candidate, that is the winner's row.
   */
  lemma CollisionReport(h: History, s: State, a: Action)
    requires After(h) == Some(s) && a.DedupeCommit? && Enabled(s, a) && Outcome(s, a).reply.Resolved?
    ensures var t, reply := s.txs[a.tx], Outcome(s, a).reply;
      && (reply.action == CollapsedByPin <==> t.winner.pinned)
      && (reply.action == MergedExisting <==> !t.winner.pinned)
      && t.winnerId in s.db.records
      && (t.winnerId == t.dedupe.candidateId || s.db.records[t.winnerId].version == t.winner.version ==>
            (reply.action == CollapsedByPin <==> s.db.records[t.winnerId].pinned))
  {
    Reachable(h, s);
    var t := s.txs[a.tx];
    assert TxSound(s.db, t);
    CollapseReportsPin(s.db, t, TombstoneStamp(t, a), CollapseStamp(t, a));
  }

  /**
   * The registered winner survives a collision exactly when it is not itself the candidate:
   * calling ResolveDedupe again with the winner tombstones it.
   */
  lemma WinnerSurvivesIff(h: History, s: State, a: Action)
    requires After(h) == Some(s) && a.DedupeCommit? && Enabled(s, a) && Outcome(s, a).reply.Resolved?
    requires s.txs[a.tx].winnerId in s.db.records && !s.db.records[s.txs[a.tx].winnerId].deleted
    ensures var w := s.txs[a.tx].winnerId;
      !Outcome(s, a).db.records[w].deleted <==> s.txs[a.tx].dedupe.candidateId != w
  {
    CollisionEffect(h, s, a);
  }
}
