/** Runs in which the store's calls do what their documentation does not say, step by step. */
module Scenarios {
  import opened Common
  import opened Entities
  import opened StoreModel
  import opened StoreInvariants
  import opened StoreHistory
  import opened Atomicity
  import opened AtomicCalls
  import Dedupe
  import EventOrder

  const TENANT := "t"
  const SLOT := Scoped("t", "d")

  // ------------------------------------------------------------ building blocks

  function Draft(m: MemoryId): Record {
    Record(m, TENANT, Origin("u", "p", "s", "user_saved", "h", 0), Working, "", "c", "text", [], 0.5,
           false, false, false, None, 0, 0, None, 0)
  }

  /** The row a write of the draft inserts at time 0. */
  function First(m: MemoryId): Record {
    Draft(m).(version := 1)
  }

  function WriteOf(m: MemoryId, key: string): WriteInput {
    WriteInput(TENANT, key, "hash", Draft(m))
  }

  /** A write of m under the key; n is drawn for the event and for the outbox row. */
  function WriteBy(h: History, tx: TxId, m: MemoryId, key: string, n: nat): History {
    Then(Then(h, WriteLookup(tx, WriteOf(m, key))), WriteCommit(tx, "", 0, n, n))
  }

  function Wrote(db: Db, m: MemoryId, key: string, n: nat, startedAt: Time): Db {
    Db(db.records[m := First(m)],
       db.events[EventKey(m, 1, MemoryCreated) := Event(n, TENANT, Some(key), startedAt, First(m), None)],
       db.outbox[n := Enqueued(MessageOf(First(m), MemoryCreated, n, None), startedAt)],
       db.idempotency[Scoped(TENANT, key) := IdempotencyEntry("hash", WriteResult(m, 1, true, First(m)))],
       db.winners)
  }

  /** Nothing carries the number yet. */
  ghost predicate Unused(db: Db, n: nat) {
    n !in db.outbox && forall k :: k in db.events ==> db.events[k].eventId != n
  }

  lemma WriteRuns(h: History, s: State, tx: TxId, m: MemoryId, key: string, n: nat)
    requires After(h) == Some(s) && tx !in s.txs && m != "" && key != ""
    requires m !in s.db.records && EventKey(m, 1, MemoryCreated) !in s.db.events && Unused(s.db, n)
    requires Scoped(TENANT, key) !in s.db.idempotency
    ensures After(WriteBy(h, tx, m, key, n)) == Some(s.(db := Wrote(s.db, m, key, n, s.now)))
  {
    var input := WriteOf(m, key);
    var h1 := Then(h, WriteLookup(tx, input));
    assert After(h1) == Some(s.(txs := s.txs[tx := WriteOpen(input, s.now)]));
    assert NewRecord(input, "", 0) == First(m);
    assert s.txs[tx := WriteOpen(input, s.now)] - {tx} == s.txs;
  }

  function ResolveOf(m: MemoryId, version: int): DedupeInput {
    DedupeInput(TENANT, "d", m, version)
  }

  lemma ClaimRuns(h: History, s: State, tx: TxId, m: MemoryId, version: int)
    requires After(h) == Some(s) && tx !in s.txs && SLOT !in s.db.winners
    ensures After(Then(h, DedupeClaim(tx, ResolveOf(m, version)))) == Some(s.(db := s.db.(winners := s.db.winners[SLOT := m])))
  {
  }

  /** A resolution up to its last read. */
  function CollideBy(h: History, tx: TxId, m: MemoryId, version: int): History {
    Then(Then(Then(h, DedupeClaim(tx, ResolveOf(m, version))), DedupeReadLoser(tx)), DedupeReadWinner(tx, 0))
  }

  function WinnerShown(db: Db, m: MemoryId): Record
    requires SLOT in db.winners && db.winners[SLOT] in db.records && m in db.records
  {
    var w := db.winners[SLOT];
    if w == m then SetMutationColumns(db.records[m], Mutate(Delete, db.records[m], 0)) else db.records[w]
  }

  lemma CollideRuns(h: History, s: State, tx: TxId, m: MemoryId, version: int)
    requires After(h) == Some(s) && tx !in s.txs && SLOT in s.db.winners
    requires Load(s.db, TENANT, m).Some? && s.db.records[m].version == version
    requires Load(s.db, TENANT, s.db.winners[SLOT]).Some?
    ensures After(CollideBy(h, tx, m, version))
      == Some(s.(txs := s.txs[tx := CollapseOpen(ResolveOf(m, version), s.now, s.db.winners[SLOT], s.db.records[m], 0,
                                                 WinnerShown(s.db, m))]))
  {
    var w, input := s.db.winners[SLOT], ResolveOf(m, version);
    var s1 := s.(txs := s.txs[tx := Collided(input, s.now, w)]);
    var h1 := Then(h, DedupeClaim(tx, input));
    assert After(h1) == Some(s1);
    var s2 := s.(txs := s.txs[tx := LoserRead(input, s.now, w, s.db.records[m])]);
    assert s1.txs[tx := LoserRead(input, s.now, w, s.db.records[m])] == s2.txs;
    var h2 := Then(h1, DedupeReadLoser(tx));
    assert After(h2) == Some(s2);
    var open := CollapseOpen(input, s.now, w, s.db.records[m], 0, WinnerShown(s.db, m));
    assert ReadWinner(s2, s2.txs[tx], 0) == Continue(open);
    assert s2.txs[tx := open] == s.txs[tx := open];
  }

  /** Tables with two records at their first version, "w" the registered winner; numbers above 2 are unused. */
  ghost predicate Prepared(db: Db) {
    && db.records == map["w" := First("w"), "l" := First("l")]
    && db.winners == map[SLOT := "w"]
    && db.events.Keys == {EventKey("w", 1, MemoryCreated), EventKey("l", 1, MemoryCreated)}
    && (forall k :: k in db.events ==> db.events[k].eventId <= 2)
    && (forall o :: o in db.outbox ==> o <= 2)
    && db.idempotency.Keys == {Scoped(TENANT, "k1"), Scoped(TENANT, "k2")}
  }

  lemma PreparedRuns() returns (h: History, s: State)
    ensures After(h) == Some(s) && s.now == 0 && s.txs == map[] && Prepared(s.db)
  {
    WriteRuns(Empty, INITIAL, 1, "w", "k1", 1);
    var h1, s1 := WriteBy(Empty, 1, "w", "k1", 1), State(0, Wrote(EMPTY_DB, "w", "k1", 1, 0), map[]);
    ClaimRuns(h1, s1, 1, "w", 1);
    var h2, s2 := Then(h1, DedupeClaim(1, ResolveOf("w", 1))), s1.(db := s1.db.(winners := map[SLOT := "w"]));
    WriteRuns(h2, s2, 1, "l", "k2", 2);
    h, s := WriteBy(h2, 1, "l", "k2", 2), s2.(db := Wrote(s2.db, "l", "k2", 2, 0));
  }

  // ------------------------------------------------------ the winner has no record

  /** Loser "l" is at its first version, the winner "x" was never written, and nothing was ever collapsed. */
  ghost predicate WinnerMissing(db: Db) {
    && db.records == map["l" := First("l")] && db.winners == map[SLOT := "x"]
    && forall k :: k in db.events ==> k.eventType == MemoryCreated
  }

  lemma MissingWinnerRefuses(h: History, s: State) returns (h': History, s': State)
    requires After(h) == Some(s) && s.txs == map[] && WinnerMissing(s.db)
    ensures After(h') == Some(s') && s'.db == s.db && 1 in s'.txs && s'.txs[1].LoserRead?
    ensures s'.txs[1].dedupe == ResolveOf("l", 1) && Outcome(s', DedupeReadWinner(1, 0)).reply == Refused(NotFound)
  {
    var input := ResolveOf("l", 1);
    var h1, s1 := Then(h, DedupeClaim(1, input)), s.(txs := map[1 := Collided(input, s.now, "x")]);
    assert After(h1) == Some(s1);
    s' := s.(txs := map[1 := LoserRead(input, s.now, "x", First("l"))]);
    assert s1.txs[1 := LoserRead(input, s.now, "x", First("l"))] == s'.txs;
    h' := Then(h1, DedupeReadLoser(1));
  }

  /**
   * A run in which a candidate that was never written is registered: the next candidate of
   * the key is refused, although it is at the version given and nothing was ever collapsed.
   */
  lemma UnwrittenWinnerIsNotFound() returns (h: History, s: State)
    ensures After(h) == Some(s) && WinnerMissing(s.db)
    ensures Enabled(s, DedupeReadWinner(1, 0)) && s.txs[1].dedupe == ResolveOf("l", 1)
    ensures Outcome(s, DedupeReadWinner(1, 0)).reply == Refused(NotFound)
  {
    ClaimRuns(Empty, INITIAL, 1, "x", 1);
    var h0, s0 := Then(Empty, DedupeClaim(1, ResolveOf("x", 1))), State(0, EMPTY_DB.(winners := map[SLOT := "x"]), map[]);
    WriteRuns(h0, s0, 1, "l", "k2", 2);
    h, s := MissingWinnerRefuses(WriteBy(h0, 1, "l", "k2", 2), s0.(db := Wrote(s0.db, "l", "k2", 2, 0)));
  }

  // ---------------------------------------------------------- the duplicate is late

  /**
   * A run in which two requests with one key look it up before either commits: the second is
   * refused, where the same call run alone is answered with the recorded response.
   */
  lemma LateDuplicateIsNotReplayed() returns (h: History, s: State, a: Action)
    ensures After(h) == Some(s) && a.WriteCommit? && Enabled(s, a) && s.txs[a.tx].write == WriteOf("w", "k1")
    ensures Outcome(s, a).reply == Refused(ConstraintViolation)
    ensures Atomic(s.db, OpOf(s, a).value).reply == Written(WriteResult("w", 1, true, First("w")))
  {
    var input := WriteOf("w", "k1");
    var h1, s1 := Then(Empty, WriteLookup(1, input)), State(0, EMPTY_DB, map[1 := WriteOpen(input, 0)]);
    assert After(h1) == Some(s1);
    var h2, s2 := Then(h1, WriteLookup(2, input)), State(0, EMPTY_DB, map[1 := WriteOpen(input, 0), 2 := WriteOpen(input, 0)]);
    assert s1.txs[2 := WriteOpen(input, 0)] == s2.txs;
    assert After(h2) == Some(s2);
    assert NewRecord(input, "", 0) == First("w");
    h, s := Then(h2, WriteCommit(1, "", 0, 1, 1)), State(0, Wrote(EMPTY_DB, "w", "k1", 1, 0), map[2 := WriteOpen(input, 0)]);
    assert s2.txs - {1} == s.txs;
    assert After(h) == Some(s);
    a := WriteCommit(2, "", 0, 2, 2);
  }

  // ------------------------------------------------- the winner tombstones itself

  /** A collapse that is ready to commit does, under new numbers, unless the winner was collapsed into at that version. */
  lemma ReadyCollapseCommits(h: History, s: State, tx: TxId, n: nat)
    requires After(h) == Some(s) && tx in s.txs && s.txs[tx].CollapseOpen?
    requires s.txs[tx].dedupe.candidateId in s.db.records
    requires s.db.records[s.txs[tx].dedupe.candidateId].version == s.txs[tx].dedupe.candidateVersion
    requires CollapseKey(s.txs[tx]) !in s.db.events && Unused(s.db, n) && Unused(s.db, n + 1)
    ensures Outcome(s, DedupeCommit(tx, n, n, n + 1, n + 1)).reply.Resolved?
  {
    Reachable(h, s);
    assert TxSound(s.db, s.txs[tx]);
    CollapseReply(s.db, s.txs[tx], Stamp(n, n, s.txs[tx].startedAt), Stamp(n + 1, n + 1, s.txs[tx].startedAt));
  }

  /** A run in which the registered winner resolves its own key again, and is tombstoned by it. */
  lemma WinnerTombstonesItself() returns (h: History, s: State, a: Action)
    ensures After(h) == Some(s) && a.DedupeCommit? && Enabled(s, a)
    ensures "w" in s.db.records && !s.db.records["w"].deleted && s.db.winners == map[SLOT := "w"]
    ensures Outcome(s, a).reply.Resolved? && Outcome(s, a).reply.winnerId == "w" && Outcome(s, a).db.records["w"].deleted
  {
    var h0, s0 := PreparedRuns();
    CollideRuns(h0, s0, 1, "w", 1);
    h := CollideBy(h0, 1, "w", 1);
    s, a := After(h).value, DedupeCommit(1, 3, 3, 4, 4);
    ReadyCollapseCommits(h, s, 1, 3);
    Dedupe.CollisionEffect(h, s, a);
  }

  // --------------------------------------------------------- the repeated collapse

  /** A commit uses no numbers but the two it draws. */
  lemma CommitUsesItsNumbers(db: Db, t: Tx, stamp: Stamp, collapse: Stamp, n: nat)
    requires t.CollapseOpen? && Unused(db, n)
    requires n != stamp.eventId && n != stamp.outboxId && n != collapse.eventId && n != collapse.outboxId
    ensures Unused(WriteCollapse(db, t.dedupe, t.winnerId, t.read, t.at, t.winner, stamp, collapse).db, n)
  {
  }

  /** The collision of m with the winner "w", both at their first version, is ready to commit. */
  function Ready(m: MemoryId, startedAt: Time): Tx {
    CollapseOpen(ResolveOf(m, 1), startedAt, "w", First(m), 0, First("w"))
  }

  ghost predicate MayCollide(db: Db, m: MemoryId) {
    && m != "w" && m in db.records && db.records[m] == First(m)
    && "w" in db.records && db.records["w"] == First("w") && db.winners == map[SLOT := "w"]
  }

  lemma LoserCollides(h: History, s: State, m: MemoryId)
    requires After(h) == Some(s) && s.txs == map[] && MayCollide(s.db, m)
    ensures After(CollideBy(h, 1, m, 1)) == Some(s.(txs := map[1 := Ready(m, s.now)]))
  {
    CollideRuns(h, s, 1, m, 1);
  }

  /** The first collapse: the winner is untouched, and its collapse at version 1 is logged. */
  lemma FirstCollapse(h: History, s: State, n: nat)
    requires After(h) == Some(s) && s.txs == map[1 := Ready("l", s.now)] && MayCollide(s.db, "l")
    requires EventKey("w", 1, MemoryDedupeCollapsed) !in s.db.events && Unused(s.db, n) && Unused(s.db, n + 1)
    ensures var a := DedupeCommit(1, n, n, n + 1, n + 1); var db' := Outcome(s, a).db;
      && Outcome(s, a).reply == Resolved("w", MergedExisting)
      && db'.records.Keys == s.db.records.Keys && db'.records["w"] == First("w") && db'.winners == s.db.winners
      && db'.idempotency == s.db.idempotency
      && db'.events.Keys == s.db.events.Keys + {EventKey("l", 2, MemoryDeleted), EventKey("w", 1, MemoryDedupeCollapsed)}
  {
    ReadyCollapseCommits(h, s, 1, n);
    Dedupe.CollisionEffect(h, s, DedupeCommit(1, n, n, n + 1, n + 1));
  }

  /** Tables after the first collapse; numbers above 4 are unused. */
  ghost predicate CollapsedOnce(db: Db) {
    && db.records.Keys == {"w", "l"} && db.records["w"] == First("w") && db.winners == map[SLOT := "w"]
    && db.idempotency.Keys == {Scoped(TENANT, "k1"), Scoped(TENANT, "k2")}
    && db.events.Keys == {EventKey("w", 1, MemoryCreated), EventKey("l", 1, MemoryCreated),
                          EventKey("l", 2, MemoryDeleted), EventKey("w", 1, MemoryDedupeCollapsed)}
    && Unused(db, 5) && Unused(db, 6) && Unused(db, 7) && Unused(db, 8)
  }

  lemma LoserReady() returns (h: History, s: State)
    ensures After(h) == Some(s) && s.txs == map[1 := Ready("l", s.now)] && Prepared(s.db) && MayCollide(s.db, "l")
    ensures forall n: nat :: n > 2 ==> Unused(s.db, n)
  {
    var h0, s0 := PreparedRuns();
    LoserCollides(h0, s0, "l");
    h, s := CollideBy(h0, 1, "l", 1), s0.(txs := map[1 := Ready("l", s0.now)]);
  }

  lemma FirstCollapseLeaves(s: State, n: nat, p: nat)
    requires s.txs == map[1 := Ready("l", s.now)] && Unused(s.db, p) && p != n && p != n + 1
    ensures Unused(Outcome(s, DedupeCommit(1, n, n, n + 1, n + 1)).db, p)
  {
    CommitUsesItsNumbers(s.db, s.txs[1], Stamp(n, n, s.now), Stamp(n + 1, n + 1, s.now), p);
  }

  lemma FirstCollapseRuns(h: History, s: State, n: nat) returns (h': History, s': State)
    requires After(h) == Some(s) && s.txs == map[1 := Ready("l", s.now)] && MayCollide(s.db, "l")
    requires EventKey("w", 1, MemoryDedupeCollapsed) !in s.db.events && Unused(s.db, n) && Unused(s.db, n + 1)
    ensures After(h') == Some(s') && s'.txs == map[]
    ensures s'.db.records.Keys == s.db.records.Keys && s'.db.records["w"] == First("w")
    ensures s'.db.winners == s.db.winners && s'.db.idempotency == s.db.idempotency
    ensures s'.db.events.Keys == s.db.events.Keys + {EventKey("l", 2, MemoryDeleted), EventKey("w", 1, MemoryDedupeCollapsed)}
    ensures forall p: nat :: Unused(s.db, p) && p != n && p != n + 1 ==> Unused(s'.db, p)
  {
    var a := DedupeCommit(1, n, n, n + 1, n + 1);
    FirstCollapse(h, s, n);
    h', s' := Then(h, a), State(s.now, Outcome(s, a).db, map[]);
    assert s.txs - {1} == map[];
    forall p: nat | Unused(s.db, p) && p != n && p != n + 1 ensures Unused(s'.db, p) {
      FirstCollapseLeaves(s, n, p);
    }
  }

  lemma CollapseOnce() returns (h: History, s: State)
    ensures After(h) == Some(s) && s.txs == map[] && CollapsedOnce(s.db)
  {
    var h1, s1 := LoserReady();
    assert Unused(s1.db, 5) && Unused(s1.db, 6) && Unused(s1.db, 7) && Unused(s1.db, 8);
    h, s := FirstCollapseRuns(h1, s1, 3);
  }

  lemma CollapseAgain(h: History, s: State, n: nat)
    requires After(h) == Some(s) && s.txs == map[1 := Ready("m", s.now)] && MayCollide(s.db, "m")
    requires EventKey("w", 1, MemoryDedupeCollapsed) in s.db.events && Unused(s.db, n) && Unused(s.db, n + 1)
    ensures var a := DedupeCommit(1, n, n, n + 1, n + 1);
      Outcome(s, a).reply == Refused(ConstraintViolation) && Outcome(s, a).db == s.db
  {
    Reachable(h, s);
    assert TxSound(s.db, s.txs[1]);
    CollapseReply(s.db, s.txs[1], Stamp(n, n, s.now), Stamp(n + 1, n + 1, s.now));
  }

  /** Tables in which "m" may collide with a winner that was collapsed into at its first version. */
  ghost predicate CollapsedAndFresh(db: Db) {
    && MayCollide(db, "m") && EventKey("w", 1, MemoryDedupeCollapsed) in db.events
    && EventKey("w", 2, MemoryPinned) !in db.events && EventKey("w", 2, MemoryDedupeCollapsed) !in db.events
    && Unused(db, 6) && Unused(db, 7) && Unused(db, 8)
  }

  lemma ThirdWritten(db: Db, startedAt: Time)
    requires CollapsedOnce(db)
    ensures CollapsedAndFresh(Wrote(db, "m", "k3", 5, startedAt))
  {
    var db' := Wrote(db, "m", "k3", 5, startedAt);
    assert Unused(db', 6) && Unused(db', 7) && Unused(db', 8);
  }

  lemma ThirdReady() returns (h: History, s: State)
    ensures After(h) == Some(s) && s.txs == map[1 := Ready("m", s.now)] && CollapsedAndFresh(s.db)
  {
    var h0, s0 := CollapseOnce();
    ThirdWritten(s0.db, s0.now);
    WriteRuns(h0, s0, 1, "m", "k3", 5);
    var h1, s1 := WriteBy(h0, 1, "m", "k3", 5), s0.(db := Wrote(s0.db, "m", "k3", 5, s0.now));
    LoserCollides(h1, s1, "m");
    h, s := CollideBy(h1, 1, "m", 1), s1.(txs := map[1 := Ready("m", s1.now)]);
  }

  /** A run in which a second collision at the unchanged winner is refused and leaves every table as it was. */
  lemma SecondCollapseIsRefused() returns (h: History, s: State, a: Action)
    ensures After(h) == Some(s) && a.DedupeCommit? && Enabled(s, a) && s.txs[a.tx].dedupe == ResolveOf("m", 1)
    ensures MayCollide(s.db, "m") && EventKey("w", 1, MemoryDedupeCollapsed) in s.db.events
    ensures Outcome(s, a).reply == Refused(ConstraintViolation) && Outcome(s, a).db == s.db
  {
    h, s := ThirdReady();
    a := DedupeCommit(1, 6, 6, 7, 7);
    CollapseAgain(h, s, 6);
  }

  // -------------------------------------------------------------- the stale collapse

  function PinOf(m: MemoryId): MutationInput {
    MutationInput(TENANT, m, 1, Pin(true))
  }

  lemma PinRuns(h: History, s: State, tx: TxId, m: MemoryId, n: nat)
    requires After(h) == Some(s) && tx !in s.txs && m != ""
    requires m in s.db.records && s.db.records[m] == First(m)
    requires EventKey(m, 2, MemoryPinned) !in s.db.events && Unused(s.db, n)
    ensures var h' := Then(Then(h, MutateRead(tx, PinOf(m))), MutateCommit(tx, 0, n, n)); var s' := After(h');
      && s'.Some? && s'.value == s.(db := s'.value.db)
      && s'.value.db.records == s.db.records[m := First(m).(pinned := true, version := 2)]
      && s'.value.db.winners == s.db.winners
      && s'.value.db.events.Keys == s.db.events.Keys + {EventKey(m, 2, MemoryPinned)}
      && forall p: nat :: p != n && Unused(s.db, p) ==> Unused(s'.value.db, p)
  {
    var input, open := PinOf(m), MutateOpen(PinOf(m), s.now, First(m));
    var h1, s1 := Then(h, MutateRead(tx, input)), s.(txs := s.txs[tx := open]);
    assert After(h1) == Some(s1);
    assert s1.txs - {tx} == s.txs;
    var w := WriteMutation(s.db, input, First(m), 0, Stamp(n, n, s.now));
    assert Outcome(s1, MutateCommit(tx, 0, n, n)) == w;
    assert !w.reply.Refused?;
  }

  lemma StaleCommit(h: History, s: State, n: nat)
    requires After(h) == Some(s) && s.txs == map[1 := Ready("l", s.now)]
    requires "l" in s.db.records && s.db.records["l"] == First("l")
    requires "w" in s.db.records && s.db.records["w"].version == 2
    requires EventKey("w", 1, MemoryDedupeCollapsed) !in s.db.events && Unused(s.db, n) && Unused(s.db, n + 1)
    ensures var a, k := DedupeCommit(1, n, n, n + 1, n + 1), EventKey("w", 1, MemoryDedupeCollapsed);
      && StaleCollapse(s, a) && !Outcome(s, a).reply.Refused?
      && EventOrder.Added(s.db, Outcome(s, a).db, k) && !IsLatest(Outcome(s, a).db, k)
  {
    var a := DedupeCommit(1, n, n, n + 1, n + 1);
    ReadyCollapseCommits(h, s, 1, n);
    EventOrder.CollapseMayBeListedIff(h, s, a);
    Dedupe.CollisionEffect(h, s, a);
  }

  /** The winner moves on while the collision waits to commit. */
  lemma WinnerMovesOn() returns (h: History, s: State)
    ensures After(h) == Some(s) && s.txs == map[1 := Ready("l", s.now)]
    ensures "l" in s.db.records && s.db.records["l"] == First("l")
    ensures "w" in s.db.records && s.db.records["w"].version == 2
    ensures EventKey("w", 1, MemoryDedupeCollapsed) !in s.db.events && Unused(s.db, 4) && Unused(s.db, 5)
  {
    var h1, s1 := LoserReady();
    PinRuns(h1, s1, 2, "w", 3);
    h := Then(Then(h1, MutateRead(2, PinOf("w"))), MutateCommit(2, 0, 3, 3));
    s := After(h).value;
    assert Unused(s1.db, 4) && Unused(s1.db, 5);
  }

  /**
   * A run in which a collapse commits after its winner has moved on. The event it appends
   * last of all shows the winner's old version, and is not the one the session listing
   * reports; nor do the calls run alone leave these tables.
   */
  lemma CollapseOfOldVersion() returns (h: History, s: State, a: Action)
    ensures After(h) == Some(s) && a.DedupeCommit? && Enabled(s, a) && StaleCollapse(s, a)
    ensures var k := EventKey("w", 1, MemoryDedupeCollapsed);
      EventOrder.Added(s.db, Outcome(s, a).db, k) && !IsLatest(Outcome(s, a).db, k)
    ensures !Agrees(Outcome(s, a).db, CallRun(Then(h, a)))
  {
    h, s := WinnerMovesOn();
    a := DedupeCommit(1, 4, 4, 5, 5);
    StaleCommit(h, s, 4);
    StaleRunDisagrees(h, s, a);
  }

  lemma StaleRunDisagrees(h: History, s: State, a: Action)
    requires After(h) == Some(s) && Enabled(s, a) && StaleCollapse(s, a)
    ensures !Agrees(Outcome(s, a).db, CallRun(Then(h, a)))
  {
    InterleavingRefinesCallsIff(Then(h, a), Apply(s, a));
  }

  // ------------------------------------------------------- the refusal out of date

  lemma OldVersionRefused(h: History, s: State, n: nat)
    requires After(h) == Some(s) && s.txs == map[1 := Ready("m", s.now)]
    requires "m" in s.db.records && s.db.records["m"] == First("m")
    requires "w" in s.db.records && s.db.records["w"].version == 2
    requires EventKey("w", 1, MemoryDedupeCollapsed) in s.db.events && EventKey("w", 2, MemoryDedupeCollapsed) !in s.db.events
    requires Unused(s.db, n) && Unused(s.db, n + 1)
    ensures var stamp, collapse := Stamp(n, n, s.now), Stamp(n + 1, n + 1, s.now);
      && WriteCollapse(s.db, ResolveOf("m", 1), "w", First("m"), 0, First("w"), stamp, collapse).reply == Refused(ConstraintViolation)
      && !AtomicResolve(s.db, ResolveOf("m", 1), 0, stamp, collapse).reply.Refused?
  {
    Reachable(h, s);
    assert TxSound(s.db, s.txs[1]);
    CollapseReply(s.db, s.txs[1], Stamp(n, n, s.now), Stamp(n + 1, n + 1, s.now));
    AloneReply(s.db, s.txs[1], Stamp(n, n, s.now), Stamp(n + 1, n + 1, s.now));
  }

  /**
   * A run in which a collapse is refused because the winner was collapsed into at the version
   * it had read, although the winner has moved on and the call run alone would succeed.
   */
  lemma RefusedAtOldVersion() returns (h: History, s: State, a: Action)
    ensures After(h) == Some(s) && a.DedupeCommit? && Enabled(s, a)
    ensures Outcome(s, a).reply == Refused(ConstraintViolation)
    ensures CallOf(s, a).Some? && !Alone(s.db, CallOf(s, a).value).reply.Refused?
  {
    var h1, s1 := ThirdReady();
    PinRuns(h1, s1, 2, "w", 6);
    h := Then(Then(h1, MutateRead(2, PinOf("w"))), MutateCommit(2, 0, 6, 6));
    s, a := After(h).value, DedupeCommit(1, 7, 7, 8, 8);
    assert Unused(s1.db, 7) && Unused(s1.db, 8);
    OldVersionRefused(h, s, 7);
    CallOfCommit(s, 1, 7, 7, 8, 8);
  }

  // ------------------------------------------------------ the late duplicate promotion

  function PromotionOf(m: MemoryId): PromoteInput {
    PromoteInput(TENANT, m, "e", 1, "p")
  }

  /** Two promotions of m with one key have looked it up and read the record. */
  ghost predicate BothRead(s: State, m: MemoryId) {
    && s.txs == map[1 := PromoteOpen(PromotionOf(m), s.now, First(m)), 2 := PromoteOpen(PromotionOf(m), s.now, First(m))]
    && m in s.db.records && s.db.records[m] == First(m) && Scoped(TENANT, "p") !in s.db.idempotency
    && EventKey(m, 2, MemoryPromoted) !in s.db.events && Unused(s.db, 2)
  }

  lemma OnePromotionReads(h: History, s: State, tx: TxId, m: MemoryId)
    requires After(h) == Some(s) && tx !in s.txs && m != "" && m in s.db.records && s.db.records[m] == First(m)
    requires Scoped(TENANT, "p") !in s.db.idempotency
    ensures After(Then(Then(h, PromoteLookup(tx, PromotionOf(m))), PromoteRead(tx)))
         == Some(s.(txs := s.txs[tx := PromoteOpen(PromotionOf(m), s.now, First(m))]))
  {
    var s1 := s.(txs := s.txs[tx := PromoteLookedUp(PromotionOf(m), s.now)]);
    assert After(Then(h, PromoteLookup(tx, PromotionOf(m)))) == Some(s1);
    var open := PromoteOpen(PromotionOf(m), s.now, First(m));
    assert s1.txs[tx := open] == s.txs[tx := open];
  }

  lemma BothPromotionsRead() returns (h: History, s: State)
    ensures After(h) == Some(s) && BothRead(s, "w")
  {
    WriteRuns(Empty, INITIAL, 1, "w", "k1", 1);
    var h0, s0 := WriteBy(Empty, 1, "w", "k1", 1), State(0, Wrote(EMPTY_DB, "w", "k1", 1, 0), map[]);
    OnePromotionReads(h0, s0, 1, "w");
    var h1 := Then(Then(h0, PromoteLookup(1, PromotionOf("w"))), PromoteRead(1));
    var s1 := s0.(txs := map[1 := PromoteOpen(PromotionOf("w"), 0, First("w"))]);
    assert After(h1) == Some(s1);
    OnePromotionReads(h1, s1, 2, "w");
    h, s := Then(Then(h1, PromoteLookup(2, PromotionOf("w"))), PromoteRead(2)), After(Then(Then(h1,
      PromoteLookup(2, PromotionOf("w"))), PromoteRead(2))).value;
  }

  /** The first of them commits. */
  lemma FirstPromotionCommits(h: History, s: State, m: MemoryId) returns (h': History, s': State)
    requires After(h) == Some(s) && BothRead(s, m)
    ensures After(h') == Some(s') && s'.now == s.now && s'.txs == map[2 := PromoteOpen(PromotionOf(m), s.now, First(m))]
    ensures m in s'.db.records && s'.db.records[m].version == 2
    ensures Scoped(TENANT, "p") in s'.db.idempotency
      && s'.db.idempotency[Scoped(TENANT, "p")].requestHash == HashOf(PromotionOf(m))
      && s'.db.idempotency[Scoped(TENANT, "p")].response.version == 2
  {
    var a, input := PromoteCommit(1, 0, 2, 2), PromotionOf(m);
    var w := WritePromotion(s.db, input, First(m), 0, Stamp(2, 2, s.now));
    assert Outcome(s, a) == w;
    assert !w.reply.Refused?;
    h', s' := Then(h, a), State(s.now, w.db, map[2 := PromoteOpen(input, s.now, First(m))]);
    assert s.txs - {1} == s'.txs;
  }

  /** The second is refused, where the same call run alone is answered with the recorded response. */
  lemma SecondPromotionRefused(s: State, m: MemoryId)
    requires s.txs == map[2 := PromoteOpen(PromotionOf(m), s.now, First(m))] && m != ""
    requires m in s.db.records && s.db.records[m].version == 2 && Scoped(TENANT, "p") in s.db.idempotency
    requires s.db.idempotency[Scoped(TENANT, "p")].requestHash == HashOf(PromotionOf(m))
    ensures Outcome(s, PromoteCommit(2, 0, 3, 3)).reply == Refused(VersionConflict)
    ensures AtomicPromotion(s.db, PromotionOf(m), 0, Stamp(3, 3, s.now)).reply
         == Written(s.db.idempotency[Scoped(TENANT, "p")].response.(created := false))
  {
  }

  /** A run in which a duplicate promotion is refused where the call run alone is answered with the recorded response. */
  lemma LatePromotionIsNotReplayed() returns (h: History, s: State, a: Action)
    ensures After(h) == Some(s) && a.PromoteCommit? && Enabled(s, a) && s.txs[a.tx].promote == PromotionOf("w")
    ensures Outcome(s, a).reply == Refused(VersionConflict)
    ensures CallOf(s, a).Some? && Alone(s.db, CallOf(s, a).value).reply.Written?
  {
    var h0, s0 := BothPromotionsRead();
    h, s := FirstPromotionCommits(h0, s0, "w");
    a := PromoteCommit(2, 0, 3, 3);
    SecondPromotionRefused(s, "w");
  }
}
