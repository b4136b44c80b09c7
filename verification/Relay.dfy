/**
 * The relay worker and the database it talks to. Between any two statements of a call the
 * rest of the world runs a script of its own: other workers, writers, operators, the clock,
 * and a Release of this very worker. The scripts are arguments, so what a call ensures
 * holds against every interference.
 */
module Relay {
  import opened Common
  import opened Entities
  import opened Outbox
  import opened RelayProtocol
  import RelayCounting
  import RelaySafety
  import ClaimOrder
  import Drain

  // -------------------------------------------------------------- accounting

  /** What an ack statement did to the table, read off the rows before and after it. */
  datatype Move = ToSent | ToPending | ToFailed | Untouched

  ghost predicate IsMove(h: History, w: WorkerId, m: Move) {
    && h.Then? && h.last.AckApply? && h.last.w == w && After(h).Some?
    && MoveMade(After(h.before).value, After(h).value, w) == m
  }

  ghost function MoveMade(s: State, s': State, w: WorkerId): Move
    requires w in s.workers && s.workers[w].phase.Acking?
    requires s.workers[w].phase.pos < |s.workers[w].phase.batch|
  {
    var id := s.workers[w].phase.batch[s.workers[w].phase.pos].id;
    if s'.rows == s.rows || id !in s'.rows then Untouched
    else match s'.rows[id].status
      case Sent => ToSent
      case Failed => ToFailed
      case _ => ToPending
  }

  /** How many acks of the worker made this move, over the whole history. */
  ghost function Moves(h: History, w: WorkerId, m: Move): nat {
    match h
    case Empty => 0
    case Then(before, _) => Moves(before, w, m) + if IsMove(h, w, m) then 1 else 0
  }

  /** A row handed to a publisher, and whether that succeeded. */
  datatype Handover = Handover(id: OutboxId, ok: bool)

  /** What the worker has handed to its publisher, oldest first, over the whole history. */
  function PublishLog(h: History, w: WorkerId): seq<Handover> {
    match h
    case Empty => []
    case Then(before, a) => PublishLog(before, w) + if a.Publish? && a.w == w then [Handover(a.id, a.ok)] else []
  }

  /** The run goes on without an ack or a publish of the worker. */
  ghost predicate NothingDone(later: History, earlier: History, w: WorkerId) {
    && Continues(later, earlier)
    && (forall m :: Moves(later, w, m) == Moves(earlier, w, m))
    && PublishLog(later, w) == PublishLog(earlier, w)
  }

  /** The run goes on with one publish of the worker, of this row, and with this move by one of its acks, if any. */
  ghost predicate OneDelivered(later: History, earlier: History, w: WorkerId, handed: Handover, made: Option<Move>) {
    && Continues(later, earlier)
    && PublishLog(later, w) == PublishLog(earlier, w) + [handed]
    && forall m :: Moves(later, w, m) == Moves(earlier, w, m) + (if Some(m) == made then 1 else 0)
  }

  lemma NothingDoneTransitive(h3: History, h2: History, h1: History, w: WorkerId)
    requires NothingDone(h3, h2, w) && NothingDone(h2, h1, w)
    ensures NothingDone(h3, h1, w)
  {
    ContinuesTransitive(h3, h2, h1);
  }

  /** Only others acted since. */
  ghost predicate Interlude(later: History, earlier: History, w: WorkerId) {
    later == earlier
    || (later.Then? && !RelaySafety.Advances(later.last, w) && Interlude(later.before, earlier, w))
  }

  lemma {:induction false} InterludeKeepsWorker(later: History, earlier: History, w: WorkerId)
    requires Interlude(later, earlier, w) && After(later).Some? && After(earlier).Some?
    requires w in After(earlier).value.workers
    ensures w in After(later).value.workers
    ensures After(later).value.workers[w] == After(earlier).value.workers[w]
    ensures After(later).value.now >= After(earlier).value.now
    ensures NothingDone(later, earlier, w)
    ensures RelaySafety.NewestBatch(later, w) == RelaySafety.NewestBatch(earlier, w)
  {
    if later != earlier {
      var s := After(later.before).value;
      InterludeKeepsWorker(later.before, earlier, w);
      RelaySafety.Reachable(later.before, s);
      RelaySafety.OthersPhaseStays(s, later.last, w);
    }
  }

  // --------------------------------------------------------------- the world

  /** Everything a call does not decide itself, indexed by the moment it is consulted. */
  datatype World = World(
    script: nat -> seq<Action>,
    holderCommits: nat -> bool,
    fails: nat -> bool,
    publish: nat -> Option<string>,
    clientClock: nat -> Time)

  ghost predicate NothingFails(world: World) {
    forall k: nat :: !world.fails(k)
  }

  /** Nobody but the clock moves, and no statement fails. */
  ghost predicate Undisturbed(world: World) {
    && (forall k: nat, i: nat :: i < |world.script(k)| ==> world.script(k)[i].Tick?)
    && NothingFails(world)
  }

  /** No script moves the clock past this time. */
  ghost predicate NoLaterThan(world: World, limit: Time) {
    forall k: nat :: ScriptBy(world.script(k), limit)
  }

  ghost predicate ScriptBy(script: seq<Action>, limit: Time) {
    forall i :: 0 <= i < |script| && script[i].Tick? ==> script[i].to <= limit
  }

  /** The clock has not gone back, and only the scripts have moved it. */
  ghost predicate OnlyScriptsTick(world: World, earlier: Time, later: Time) {
    earlier <= later && forall limit :: NoLaterThan(world, limit) && earlier <= limit ==> later <= limit
  }

  /** How many of the first n acks of a call fail. */
  function FailingAcks(world: World, n: nat): nat {
    if n == 0 then 0 else FailingAcks(world, n - 1) + if world.fails(1 + 3 * n) then 1 else 0
  }

  lemma {:induction false} NoAckFails(world: World, n: nat)
    requires NothingFails(world)
    ensures FailingAcks(world, n) == 0
  {
    if n > 0 {
      NoAckFails(world, n - 1);
    }
  }

  /** What the publisher answers to the i-th message of a call. */
  function Answers(world: World, ids: seq<OutboxId>): (calls: seq<Handover>)
    ensures |calls| == |ids|
    ensures forall i :: 0 <= i < |ids| ==> calls[i] == Handover(ids[i], world.publish(3 + 3 * i) == None)
  {
    seq(|ids|, i requires 0 <= i < |ids| => Handover(ids[i], world.publish(3 + 3 * i) == None))
  }

  class Database {
    var now: Time
    var rows: Table
    var locks: map<OutboxId, WorkerId>
    var workers: map<WorkerId, Worker>
    ghost var history: History

    function Snapshot(): State
      reads this
    {
      State(now, rows, locks, workers)
    }

    /** The tables hold what the history of all actions led to. */
    ghost predicate Valid()
      reads this
    {
      After(history) == Some(Snapshot())
    }

    constructor ()
      ensures Valid() && history == Empty
    {
      now, rows, locks, workers := 0, map[], map[], map[];
      history := Empty;
    }

    method Perform(a: Action)
      requires Valid() && Enabled(Snapshot(), a)
      modifies this
      ensures Valid() && history == Then(old(history), a) && Snapshot() == Apply(old(Snapshot()), a)
    {
      var s := Apply(Snapshot(), a);
      now, rows, locks, workers := s.now, s.rows, s.locks, s.workers;
      history := Then(history, a);
    }

    /** The rest of the world takes its turn; steps it cannot take are skipped. */
    method Yield(w: WorkerId, script: seq<Action>)
      requires Valid()
      modifies this
      ensures Valid() && Interlude(history, old(history), w)
      ensures forall limit :: ScriptBy(script, limit) && old(now) <= limit ==> now <= limit
      ensures (forall i :: 0 <= i < |script| ==> script[i].Tick?) ==>
        rows == old(rows) && locks == old(locks) && workers == old(workers)
    {
      for i := 0 to |script|
        invariant Valid() && Interlude(history, old(history), w)
        invariant forall limit :: ScriptBy(script, limit) && old(now) <= limit ==> now <= limit
        invariant (forall i :: 0 <= i < |script| ==> script[i].Tick?) ==>
          rows == old(rows) && locks == old(locks) && workers == old(workers)
      {
        if Enabled(Snapshot(), script[i]) && !RelaySafety.Advances(script[i], w) {
          Perform(script[i]);
        }
      }
    }

    /** The operator's retry of a failed row, with a fresh attempt budget; any other row is left alone. */
    method RequeueFailed(outboxID: OutboxId) returns (rowsAffected: nat)
      requires Valid()
      modifies this
      ensures Valid() && now == old(now) && locks == old(locks) && workers == old(workers)
      ensures rowsAffected == if outboxID in old(rows) && old(rows)[outboxID].status == Failed then 1 else 0
      ensures rowsAffected == 0 ==> rows == old(rows) && history == old(history)
      ensures rowsAffected == 1 ==>
        && history == Then(old(history), Requeue(outboxID))
        && RelayCounting.ClaimsSinceReset(history, outboxID) == 0
        && rows == old(rows)[outboxID := old(rows)[outboxID].(status := Pending, attempts := 0, lastError := None,
                                                              claimedBy := None, claimedAt := None, leaseExpiresAt := None)]
    {
      rowsAffected := 0;
      if outboxID in rows && rows[outboxID].status == Failed {
        RelaySafety.Reachable(history, Snapshot());
        assert outboxID !in locks by {
          if outboxID in locks {
            RelaySafety.LockedRowIsOpen(Snapshot(), outboxID);
          }
        }
        var row := rows[outboxID].(status := Pending, attempts := 0, lastError := None);
        rows := rows[outboxID := row.(claimedBy := None, claimedAt := None, leaseExpiresAt := None)];
        history := Then(history, Requeue(outboxID));
        rowsAffected := 1;
      }
    }

    /** The claim transaction holding a row ends, one way or the other. */
    method EndHolder(id: OutboxId, commits: bool)
      requires Valid() && id in locks
      modifies this
      ensures Valid() && now == old(now) && id !in locks && locks.Keys < old(locks.Keys)
      ensures old(locks)[id] in old(workers) && old(workers)[old(locks)[id]].phase.Selected?
      ensures history.Then? && history.before == old(history) && RelaySafety.Advances(history.last, old(locks)[id])
      ensures workers.Keys == old(workers).Keys
      ensures forall w :: w in workers ==> workers[w].cfg == old(workers)[w].cfg
      ensures forall w :: w in workers && !old(workers)[w].phase.Stopped? ==> !workers[w].phase.Stopped?
    {
      var holder := locks[id];
      RelaySafety.Reachable(history, Snapshot());
      assert RelaySafety.LockHeld(Snapshot(), id);
      if commits {
        Perform(Commit(holder, Ids(workers[holder].phase.picked)));
      } else {
        Perform(Rollback(holder));
      }
    }

    /** An ack on a locked row waits for the claim transaction holding it. */
    method WaitForRow(w: WorkerId, id: OutboxId, holderCommits: bool)
      requires Valid() && w in workers && workers[w].phase.Acking?
      modifies this
      ensures Valid() && Interlude(history, old(history), w) && id !in locks && now == old(now)
      ensures old(locks) == map[] ==> Snapshot() == old(Snapshot())
    {
      if id in locks {
        EndHolder(id, holderCommits);
      }
    }
  }

  class RelayWorker {
    const store: Database
    const cfg: Config
    const workerID: WorkerId

    ghost predicate Valid()
      reads this, store
    {
      && store.Valid() && Usable(cfg)
      && workerID in store.workers && store.workers[workerID].cfg == cfg
    }

    function Phase(): Phase
      requires workerID in store.workers
      reads this, store
    {
      store.workers[workerID].phase
    }

    /** NewRelay: zero or negative settings take the defaults; the worker id is new. */
    constructor (store: Database, cfg: Config, workerID: WorkerId)
      requires store.Valid() && workerID !in store.workers
      modifies store
      ensures this.store == store && this.workerID == workerID && Valid() && Phase() == Idle
      ensures this.cfg.batchSize == (if cfg.batchSize > 0 then cfg.batchSize else 100)
      ensures this.cfg.leaseTtl == (if cfg.leaseTtl > 0 then cfg.leaseTtl else 180 * 1_000_000_000)
      ensures this.cfg.maxAttempts == (if cfg.maxAttempts > 0 then cfg.maxAttempts else 5)
      ensures store.history == Then(old(store.history), Start(workerID, this.cfg))
    {
      this.store, this.cfg, this.workerID := store, WithDefaults(cfg), workerID;
      new;
      store.Perform(Start(workerID, this.cfg));
    }

    /** Lets the others run; the worker's own position is as it was. */
    method Pause(world: World, k: nat)
      requires Valid()
      modifies store
      ensures Valid() && Phase() == old(Phase()) && OnlyScriptsTick(world, old(store.now), store.now)
      ensures NothingDone(store.history, old(store.history), workerID)
      ensures RelaySafety.NewestBatch(store.history, workerID) == RelaySafety.NewestBatch(old(store.history), workerID)
      ensures Undisturbed(world) ==> store.rows == old(store.rows) && store.locks == old(store.locks)
    {
      store.Yield(workerID, world.script(k));
      InterludeKeepsWorker(store.history, old(store.history), workerID);
    }

    /** One statement of this worker. */
    method Step(a: Action)
      requires Valid() && RelaySafety.Advances(a, workerID) && !a.Start? && Enabled(store.Snapshot(), a)
      modifies store
      ensures Valid() && store.history == Then(old(store.history), a)
      ensures store.Snapshot() == Apply(old(store.Snapshot()), a) && store.now == old(store.now)
      ensures !a.AckApply? && !a.Publish? ==> NothingDone(store.history, old(store.history), workerID)
      ensures !a.Commit? ==>
        RelaySafety.NewestBatch(store.history, workerID) == RelaySafety.NewestBatch(old(store.history), workerID)
    {
      store.Perform(a);
    }

    /** Opens the claim transaction; its NOW() is fixed here. */
    method OpenClaim(world: World) returns (ghost txNow: Time)
      requires Valid() && Phase() == Idle
      modifies store
      ensures Valid() && Phase() == ClaimOpen(txNow) && old(store.now) <= txNow <= store.now
      ensures OnlyScriptsTick(world, old(store.now), store.now)
      ensures RelaySafety.NewestBatch(store.history, workerID) == RelaySafety.NewestBatch(old(store.history), workerID)
      ensures NothingDone(store.history, old(store.history), workerID)
      ensures Undisturbed(world) ==> store.rows == old(store.rows) && store.locks == old(store.locks)
    {
      Pause(world, 0);
      ghost var paused := store.history;
      Step(Begin(workerID));
      txNow := store.now;
      ghost var begun := store.history;
      Pause(world, 1);
      NothingDoneTransitive(begun, paused, old(store.history), workerID);
      NothingDoneTransitive(store.history, begun, old(store.history), workerID);
    }

    /** The claim query: locks the oldest claimable rows nobody else has locked. */
    method SelectForUpdate() returns (pending: seq<Picked>)
      requires Valid() && Phase().ClaimOpen?
      modifies store
      ensures Valid() && Phase() == Selected(old(Phase()).txNow, pending) && store.now == old(store.now)
      ensures RelaySafety.NewestBatch(store.history, workerID) == RelaySafety.NewestBatch(old(store.history), workerID)
      ensures store.rows == old(store.rows) && store.locks == Lock(old(store.locks), Ids(pending), workerID)
      ensures ClaimOrder.Selection(store.rows, old(store.locks).Keys, old(Phase()).txNow, cfg.batchSize, Ids(pending))
      ensures forall i :: 0 <= i < |pending| ==> pending[i].attempts == store.rows[pending[i].id].attempts
      ensures NothingDone(store.history, old(store.history), workerID)
    {
      var sel := ClaimOrder.SelectOldest(store.rows, store.locks.Keys, Phase().txNow, cfg.batchSize);
      forall i | 0 <= i < |sel|
        ensures sel[i] in store.rows && sel[i] !in store.locks && Claimable(store.rows[sel[i]], Phase().txNow)
      {
        assert ClaimOrder.Available(store.rows, store.locks.Keys, Phase().txNow, sel[i]);
      }
      Step(Select(workerID, sel));
      pending := Phase().picked;
      assert Ids(pending) == sel;
    }

    /**
     * The last step was a claim: it gave this worker these rows, each pending or under an
     * expired lease until then, for its TTL from then on, and changed nothing else.
     */
    ghost predicate LeasesGiven(h: History, batch: seq<ClaimedMessage>, txNow: Time) {
      && h.Then? && After(h.before).Some? && After(h).Some?
      && RowsLeased(After(h.before).value.rows, After(h).value.rows, batch, txNow)
    }

    ghost predicate RowsLeased(t: Table, t': Table, batch: seq<ClaimedMessage>, txNow: Time) {
      && Distinct(BatchIds(batch)) && t'.Keys == t.Keys
      && (forall i :: 0 <= i < |batch| ==> RowLeased(t, t', batch[i], txNow))
      && (forall id :: id in t && id !in BatchIds(batch) ==> id in t' && t'[id] == t[id])
    }

    ghost predicate RowLeased(t: Table, t': Table, e: ClaimedMessage, txNow: Time) {
      && e.id in t && e.id in t'
      && (t[e.id].status == Pending
          || (t[e.id].status == Processing && t[e.id].leaseExpiresAt.Some? && t[e.id].leaseExpiresAt.value < txNow))
      && LeasedTo(t[e.id], t'[e.id], workerID, txNow, cfg.leaseTtl)
      && t'[e.id].message == e.message && t'[e.id].attempts == e.attempt
    }

    lemma CommitGivesLeases(h: History, s: State, ids: seq<OutboxId>)
      requires After(h) == Some(s) && Enabled(s, Commit(workerID, ids)) && s.workers[workerID].cfg == cfg
      ensures LeasesGiven(Then(h, Commit(workerID, ids)), BatchOf(s.workers[workerID].phase.picked), s.workers[workerID].phase.txNow)
    {
      RelaySafety.ClaimReportsStoredAttempts(h, s, Commit(workerID, ids));
      assert BatchIds(BatchOf(s.workers[workerID].phase.picked)) == ids;
    }

    static method CollectIds(pending: seq<Picked>) returns (ids: seq<OutboxId>)
      ensures ids == Ids(pending)
    {
      ids := [];
      for i := 0 to |pending|
        invariant ids == Ids(pending)[..i]
      {
        ids := ids + [pending[i].id];
      }
    }

    static method ReportClaims(pending: seq<Picked>) returns (out: seq<ClaimedMessage>)
      ensures out == BatchOf(pending)
    {
      out := [];
      for i := 0 to |pending|
        invariant out == BatchOf(pending)[..i]
      {
        out := out + [ClaimedMessage(pending[i].id, pending[i].message, pending[i].attempts + 1)];
      }
    }

    /** The claim update and its commit; the caller gets the attempt counts after the increment. */
    method ClaimUpdate(pending: seq<Picked>) returns (out: seq<ClaimedMessage>)
      requires Valid() && Phase().Selected? && Phase().picked == pending
      modifies store
      ensures Valid() && Phase() == Publishing(out, 0) && out == BatchOf(pending) && store.now == old(store.now)
      ensures store.rows == ClaimRows(old(store.rows), Ids(pending), workerID, old(Phase()).txNow, LeaseLength(cfg))
      ensures store.locks == Unlock(old(store.locks), workerID)
      ensures NewBatch(old(store.history), store.history, Ids(pending))
      ensures LeasesGiven(store.history, out, old(Phase()).txNow)
      ensures NothingDone(store.history, old(store.history), workerID)
    {
      var ids := CollectIds(pending);
      CommitGivesLeases(store.history, store.Snapshot(), ids);
      Step(Commit(workerID, ids));
      out := ReportClaims(pending);
    }

    /** The worker's newest claim is of these rows, and was committed since. */
    ghost predicate NewBatch(earlier: History, later: History, ids: seq<OutboxId>) {
      var batch := RelaySafety.NewestBatch(later, workerID);
      batch.Some? && batch.value.ids == ids && batch.value.position > earlier.Length()
    }

    /** A statement of the claim transaction failed: it is rolled back. */
    method AbandonClaim()
      requires Valid() && (Phase().ClaimOpen? || Phase().Selected?)
      modifies store
      ensures Valid() && Phase() == Idle && store.now == old(store.now) && store.rows == old(store.rows)
      ensures RelaySafety.NewestBatch(store.history, workerID) == RelaySafety.NewestBatch(old(store.history), workerID)
      ensures NothingDone(store.history, old(store.history), workerID)
    {
      Step(Rollback(workerID));
    }

    /** At this moment the claim query, with that NOW(), returns these rows. */
    ghost predicate QueryAt(moment: History, txNow: Time, ids: seq<OutboxId>) {
      && After(moment).Some? && txNow <= After(moment).value.now
      && ClaimOrder.Selection(After(moment).value.rows, After(moment).value.locks.Keys, txNow, cfg.batchSize, ids)
    }

    /** At some moment in between it does. */
    ghost predicate Queried(earlier: History, later: History, txNow: Time, ids: seq<OutboxId>) {
      exists moment :: Continues(moment, earlier) && Continues(later, moment) && QueryAt(moment, txNow, ids)
    }

    lemma QueriedWithin(earlier: History, h1: History, h2: History, later: History, txNow: Time, ids: seq<OutboxId>)
      requires Queried(h1, h2, txNow, ids) && Continues(h1, earlier) && Continues(later, h2)
      ensures Queried(earlier, later, txNow, ids)
    {
      var moment :| Continues(moment, h1) && Continues(h2, moment) && QueryAt(moment, txNow, ids);
      ContinuesTransitive(moment, h1, earlier);
      ContinuesTransitive(later, h2, moment);
    }

    /** The claim query, and whatever happens before the update. */
    method SelectAndPause(world: World, ghost quiet: bool) returns (pending: seq<Picked>)
      requires Valid() && Phase().ClaimOpen? && Phase().txNow <= store.now
      requires quiet ==> Undisturbed(world) && store.locks == map[]
      modifies store
      ensures Valid() && Phase() == Selected(old(Phase()).txNow, pending)
      ensures OnlyScriptsTick(world, old(store.now), store.now)
      ensures Queried(old(store.history), store.history, old(Phase()).txNow, Ids(pending))
      ensures NothingDone(store.history, old(store.history), workerID)
      ensures RelaySafety.NewestBatch(store.history, workerID) == RelaySafety.NewestBatch(old(store.history), workerID)
      ensures quiet ==>
        (store.rows == old(store.rows) && Unlock(store.locks, workerID) == map[]
         && ClaimOrder.Selection(store.rows, {}, old(Phase()).txNow, cfg.batchSize, Ids(pending))
         && forall i :: 0 <= i < |pending| ==> pending[i].attempts == store.rows[pending[i].id].attempts)
    {
      pending := SelectForUpdate();
      ghost var selected := store.history;
      Pause(world, 2);
      NothingDoneTransitive(store.history, selected, old(store.history), workerID);
      assert QueryAt(old(store.history), old(Phase()).txNow, Ids(pending));
    }

    /** The update of the rows selected, or the rollback. */
    method LeaseSelected(world: World, pending: seq<Picked>) returns (out: Option<seq<ClaimedMessage>>)
      requires Valid() && Phase().Selected? && Phase().picked == pending
      modifies store
      ensures Valid() && store.now == old(store.now) && NothingDone(store.history, old(store.history), workerID)
      ensures out == if world.fails(1) then None else Some(BatchOf(pending))
      ensures out == None ==>
        (Phase() == Idle
         && RelaySafety.NewestBatch(store.history, workerID) == RelaySafety.NewestBatch(old(store.history), workerID))
      ensures out.Some? ==>
        (Phase() == Publishing(out.value, 0) && NewBatch(old(store.history), store.history, BatchIds(out.value))
         && LeasesGiven(store.history, out.value, old(Phase()).txNow)
         && store.rows == ClaimRows(old(store.rows), BatchIds(out.value), workerID, old(Phase()).txNow, LeaseLength(cfg))
         && store.locks == Unlock(old(store.locks), workerID))
    {
      if world.fails(1) {
        AbandonClaim();
        return None;
      }
      var batch := ClaimUpdate(pending);
      assert BatchIds(batch) == Ids(pending);
      out := Some(batch);
    }

    /** The two statements of an open claim transaction; None when one of them fails. */
    method SelectAndLease(world: World, ghost quiet: bool) returns (out: Option<seq<ClaimedMessage>>)
      requires Valid() && Phase().ClaimOpen? && Phase().txNow <= store.now
      requires quiet ==> Undisturbed(world) && store.locks == map[]
      modifies store
      ensures Valid() && OnlyScriptsTick(world, old(store.now), store.now)
      ensures out.Some? ==> Queried(old(store.history), store.history, old(Phase()).txNow, BatchIds(out.value))
      ensures NothingDone(store.history, old(store.history), workerID)
      ensures out == None <==> world.fails(0) || world.fails(1)
      ensures out == None ==>
        (Phase() == Idle
         && RelaySafety.NewestBatch(store.history, workerID) == RelaySafety.NewestBatch(old(store.history), workerID))
      ensures out.Some? ==>
        (Phase() == Publishing(out.value, 0) && NewBatch(old(store.history), store.history, BatchIds(out.value))
         && LeasesGiven(store.history, out.value, old(Phase()).txNow))
      ensures quiet ==>
        (out.Some? && store.locks == map[]
         && ClaimOrder.Selection(old(store.rows), {}, old(Phase()).txNow, cfg.batchSize, BatchIds(out.value))
         && FreshBatch(old(store.rows), store.rows, out.value, old(Phase()).txNow))
    {
      ghost var t0, txNow := store.rows, Phase().txNow;
      if world.fails(0) {
        AbandonClaim();
        return None;
      }
      var pending := SelectAndPause(world, quiet);
      ghost var paused := store.history;
      out := LeaseSelected(world, pending);
      NothingDoneTransitive(store.history, paused, old(store.history), workerID);
      if out.Some? {
        assert BatchIds(out.value) == Ids(pending);
        ContinuesLength(paused, old(store.history));
        QueriedWithin(old(store.history), old(store.history), paused, store.history, txNow, Ids(pending));
        if quiet {
          MidwayStart(t0, store.rows, out.value, txNow);
        }
      }
    }

    /**
     * One claim transaction: the query locks the oldest claimable rows, the update leases
     * them to this worker. Other transactions run between its statements, and each may fail.
     */
    method ClaimBatch(world: World) returns (out: Option<seq<ClaimedMessage>>, ghost txNow: Time)
      requires Valid() && Phase() == Idle
      modifies store
      ensures Valid()
      ensures old(store.now) <= txNow <= store.now && OnlyScriptsTick(world, old(store.now), store.now)
      ensures out.Some? ==> Queried(old(store.history), store.history, txNow, BatchIds(out.value))
      ensures NothingDone(store.history, old(store.history), workerID)
      ensures out == None <==> world.fails(0) || world.fails(1)
      ensures out == None ==>
        (Phase() == Idle
         && RelaySafety.NewestBatch(store.history, workerID) == RelaySafety.NewestBatch(old(store.history), workerID))
      ensures out.Some? ==>
        (Phase() == Publishing(out.value, 0) && NewBatch(old(store.history), store.history, BatchIds(out.value))
         && LeasesGiven(store.history, out.value, txNow))
      ensures Undisturbed(world) && old(store.locks) == map[] ==>
        (out.Some? && store.locks == map[]
         && ClaimOrder.Selection(old(store.rows), {}, txNow, cfg.batchSize, BatchIds(out.value))
         && FreshBatch(old(store.rows), store.rows, out.value, txNow))
    {
      txNow := OpenClaim(world);
      ghost var begun := store.history;
      out := SelectAndLease(world, Undisturbed(world) && old(store.locks) == map[]);
      NothingDoneTransitive(store.history, begun, old(store.history), workerID);
      ContinuesLength(begun, old(store.history));
      if out.Some? {
        QueriedWithin(old(store.history), begun, store.history, store.history, txNow, BatchIds(out.value));
      }
    }

    /** The last step was an ack: it recorded the publisher's answer in this row and changed nothing else. */
    ghost predicate AckRecorded(h: History, id: OutboxId, answer: Option<string>, sentAt: Time) {
      && h.Then? && After(h.before).Some? && After(h).Some?
      && RowSettled(After(h.before).value.rows, After(h).value.rows, id, answer, sentAt)
    }

    ghost predicate RowSettled(t: Table, t': Table, id: OutboxId, answer: Option<string>, sentAt: Time) {
      && id in t && t'.Keys == t.Keys && t[id].status == Processing && t[id].claimedBy == Some(workerID)
      && SettledAs(t[id], t'[id], answer, cfg.maxAttempts, sentAt)
      && forall j :: j in t && j != id ==> t'[j] == t[j]
    }

    lemma AckRecords(h: History, s: State, a: Action)
      requires After(h) == Some(s) && a.AckApply? && a.w == workerID && Enabled(s, a) && s.workers[workerID].cfg == cfg
      requires var p := s.workers[workerID].phase; var id := p.batch[p.pos].id;
        id in s.rows && Owns(s.rows[id], workerID, p.txNow)
      ensures var p := s.workers[workerID].phase;
        AckRecorded(Then(h, a), p.batch[p.pos].id, if p.ok then None else Some(a.err), a.sentAt)
    {
      var p := s.workers[workerID].phase;
      assert Apply(s, a).rows[p.batch[p.pos].id].claimedBy == None;
      RelaySafety.AckIsFenced(h, s, a);
      RelaySafety.AckEffect(h, s, a);
    }

    /** The guarded update of Ack: three SET lists, one ownership predicate. */
    method AckStatement(outboxID: OutboxId, ok: bool, attemptCount: int, sentAt: Time, publishErr: string)
      returns (lost: bool)
      requires Valid() && Phase().Acking? && Phase().ok == ok && Phase().pos < |Phase().batch|
      requires Phase().batch[Phase().pos].id == outboxID && Phase().batch[Phase().pos].attempt == attemptCount
      requires outboxID !in store.locks
      modifies store
      ensures Valid() && store.history == Then(old(store.history), AckApply(workerID, sentAt, publishErr))
      ensures store.Snapshot() == Apply(old(store.Snapshot()), AckApply(workerID, sentAt, publishErr))
      ensures lost == !(outboxID in old(store.rows) && Owns(old(store.rows)[outboxID], workerID, old(Phase()).txNow))
      ensures if lost then store.rows == old(store.rows)
              else AckRecorded(store.history, outboxID, if ok then None else Some(publishErr), sentAt)
    {
      if outboxID in store.rows && Owns(store.rows[outboxID], workerID, Phase().txNow) {
        AckRecords(store.history, store.Snapshot(), AckApply(workerID, sentAt, publishErr));
      }
      ghost var before := store.Snapshot();
      ghost var action := AckApply(workerID, sentAt, publishErr);
      lost := true;
      if outboxID in store.rows {
        var row := store.rows[outboxID];
        if row.claimedBy == Some(workerID) && row.leaseExpiresAt.Some? && row.leaseExpiresAt.value > Phase().txNow {
          if ok {
            row := row.(status := Sent, sentAt := Some(sentAt), lastError := None);
          } else if attemptCount >= cfg.maxAttempts {
            row := row.(status := Failed, lastError := Some(publishErr));
          } else {
            row := row.(status := Pending, lastError := Some(publishErr));
          }
          row := row.(claimedBy := None, claimedAt := None, leaseExpiresAt := None);
          store.rows := store.rows[outboxID := row];
          lost := false;
        }
      }
      store.workers := store.workers[workerID := store.workers[workerID].(phase :=
        Publishing(Phase().batch, Phase().pos + 1))];
      assert store.Snapshot() == Apply(before, action);
      store.history := Then(store.history, action);
    }

    /** The move an ack makes, by the row it finds and the outcome it records. */
    lemma AckMoves(h: History, a: Action)
      requires After(h).Some? && a.AckApply? && a.w == workerID && Enabled(After(h).value, a)
      requires After(h).value.workers[workerID].cfg == cfg
      ensures var s := After(h).value; var p := s.workers[workerID].phase; var e := p.batch[p.pos];
        var made := if !(e.id in s.rows && Owns(s.rows[e.id], workerID, p.txNow)) then Untouched
                    else if p.ok then ToSent
                    else if e.attempt >= cfg.maxAttempts then ToFailed else ToPending;
        forall m :: Moves(Then(h, a), workerID, m) == Moves(h, workerID, m) + (if m == made then 1 else 0)
    {
      var s := After(h).value;
      var p := s.workers[workerID].phase;
      var id := p.batch[p.pos].id;
      if id in s.rows && Owns(s.rows[id], workerID, p.txNow) {
        assert Apply(s, a).rows[id].claimedBy == None;
      }
      assert forall m :: IsMove(Then(h, a), workerID, m) <==> MoveMade(s, Apply(s, a), workerID) == m;
    }

    /** Sends the ack statement: its NOW() is fixed, then it waits for the row lock. */
    method BeginAck(world: World, k: nat) returns (ghost txNow: Time)
      requires Valid() && Phase().Published? && Phase().pos < |Phase().batch|
      modifies store
      ensures Valid() && Phase() == Acking(old(Phase()).batch, old(Phase()).pos, old(Phase()).ok, txNow)
      ensures old(store.now) <= txNow <= store.now && Phase().batch[Phase().pos].id !in store.locks
      ensures OnlyScriptsTick(world, old(store.now), store.now)
      ensures RelaySafety.NewestBatch(store.history, workerID) == RelaySafety.NewestBatch(old(store.history), workerID)
      ensures NothingDone(store.history, old(store.history), workerID)
      ensures Undisturbed(world) && old(store.locks) == map[] ==>
        (store.rows == old(store.rows) && store.locks == map[])
    {
      Pause(world, k);
      ghost var paused := store.history;
      Step(AckBegin(workerID));
      txNow := store.now;
      ghost var begun := store.history;
      Pause(world, k + 1);
      ghost var waiting := store.history;
      store.WaitForRow(workerID, Phase().batch[Phase().pos].id, world.holderCommits(k));
      InterludeKeepsWorker(store.history, waiting, workerID);
      NothingDoneTransitive(begun, paused, old(store.history), workerID);
      NothingDoneTransitive(waiting, begun, old(store.history), workerID);
      NothingDoneTransitive(store.history, waiting, old(store.history), workerID);
    }

    /** The statement failed: nothing was changed, and the loop goes on. */
    method AbandonAck()
      requires Valid() && Phase().Acking?
      modifies store
      ensures Valid() && Phase() == Publishing(old(Phase()).batch, old(Phase()).pos + 1) && store.now == old(store.now)
      ensures store.rows == old(store.rows)
      ensures RelaySafety.NewestBatch(store.history, workerID) == RelaySafety.NewestBatch(old(store.history), workerID)
      ensures NothingDone(store.history, old(store.history), workerID)
    {
      Step(AckError(workerID));
    }

    /**
     * Records the outcome of one publish, if the lease is still this worker's. A lost lease or
     * a failed statement is reported, and then the table is as the statement found it.
     */
    method Ack(world: World, k: nat, outboxID: OutboxId, ok: bool, attemptCount: int, publishErr: string)
      returns (err: Option<AckFailure>, ghost txNow: Time)
      requires Valid() && Phase().Published? && Phase().ok == ok && Phase().pos < |Phase().batch|
      requires Phase().batch[Phase().pos].id == outboxID && Phase().batch[Phase().pos].attempt == attemptCount
      modifies store
      ensures Valid() && Phase() == Publishing(old(Phase()).batch, old(Phase()).pos + 1)
      ensures old(store.now) <= txNow <= store.now && OnlyScriptsTick(world, old(store.now), store.now)
      ensures RelaySafety.NewestBatch(store.history, workerID) == RelaySafety.NewestBatch(old(store.history), workerID)
      ensures Continues(store.history, old(store.history))
      ensures PublishLog(store.history, workerID) == PublishLog(old(store.history), workerID)
      ensures forall m :: Moves(store.history, workerID, m) == Moves(old(store.history), workerID, m)
                       + (if Some(m) == MoveOf(err, ok, attemptCount) then 1 else 0)
      ensures err == Some(StatementFailed) <==> world.fails(k)
      ensures err == None ==>
        AckRecorded(store.history, outboxID, if ok then None else Some(publishErr), world.clientClock(k))
      ensures Undisturbed(world) && old(store.locks) == map[] ==>
        && store.locks == map[]
        && store.rows == AckRows(old(store.rows), workerID, old(Phase()).batch[old(Phase()).pos], ok, txNow,
                                 cfg.maxAttempts, world.clientClock(k), publishErr)
    {
      txNow := BeginAck(world, k);
      ghost var h := store.history;
      if world.fails(k) {
        AbandonAck();
        NothingDoneTransitive(store.history, h, old(store.history), workerID);
        return Some(StatementFailed), txNow;
      }
      AckMoves(h, AckApply(workerID, world.clientClock(k), publishErr));
      var lost := AckStatement(outboxID, ok, attemptCount, world.clientClock(k), publishErr);
      err := if lost then Some(LeaseLost) else None;
    }

    /** What an ack did to the table, by what it reports; nothing at all when its statement failed. */
    function MoveOf(err: Option<AckFailure>, ok: bool, attemptCount: int): Option<Move> {
      match err
      case Some(StatementFailed) => None
      case Some(LeaseLost) => Some(Untouched)
      case None => Some(if ok then ToSent else if attemptCount >= cfg.maxAttempts then ToFailed else ToPending)
    }

    /** Hands the message to the publisher, which may take its time and may fail. */
    method PublishMessage(world: World, k: nat, message: ClaimedMessage) returns (err: Option<string>)
      requires Valid() && Phase().Publishing? && Phase().pos < |Phase().batch| && Phase().batch[Phase().pos] == message
      modifies store
      ensures Valid() && Phase() == Published(old(Phase()).batch, old(Phase()).pos, err == None)
      ensures OnlyScriptsTick(world, old(store.now), store.now) && err == world.publish(k)
      ensures RelaySafety.NewestBatch(store.history, workerID) == RelaySafety.NewestBatch(old(store.history), workerID)
      ensures Continues(store.history, old(store.history))
      ensures PublishLog(store.history, workerID)
        == PublishLog(old(store.history), workerID) + [Handover(message.id, err == None)]
      ensures forall m :: Moves(store.history, workerID, m) == Moves(old(store.history), workerID, m)
      ensures Undisturbed(world) ==> store.rows == old(store.rows) && store.locks == old(store.locks)
    {
      Pause(world, k);
      err := world.publish(k);
      Step(Publish(workerID, message.id, err == None));
    }

    function ErrText(publishErr: Option<string>): string {
      if publishErr.Some? then publishErr.value else ""
    }

    /** Publishes the i-th message of the batch and acks the outcome. */
    method PublishAndAck(world: World, i: nat, message: ClaimedMessage)
      returns (publishErr: Option<string>, ackErr: Option<AckFailure>, ghost ackNow: Time)
      requires Valid() && Phase().Publishing? && Phase().pos < |Phase().batch| && Phase().batch[Phase().pos] == message
      modifies store
      ensures Valid() && Phase() == Publishing(old(Phase()).batch, old(Phase()).pos + 1)
      ensures old(store.now) <= ackNow <= store.now && OnlyScriptsTick(world, old(store.now), store.now)
      ensures publishErr == world.publish(3 + 3 * i)
      ensures RelaySafety.NewestBatch(store.history, workerID) == RelaySafety.NewestBatch(old(store.history), workerID)
      ensures OneDelivered(store.history, old(store.history), workerID, Handover(message.id, publishErr == None), MoveOf(ackErr, publishErr == None, message.attempt))
      ensures ackErr == Some(StatementFailed) <==> world.fails(4 + 3 * i)
      ensures ackErr == None ==> AckRecorded(store.history, message.id, publishErr, world.clientClock(4 + 3 * i))
      ensures Undisturbed(world) && old(store.locks) == map[] ==>
        && store.locks == map[]
        && store.rows == AckRows(old(store.rows), workerID, message, publishErr == None, ackNow, cfg.maxAttempts,
                                 world.clientClock(4 + 3 * i), ErrText(publishErr))
    {
      publishErr := PublishMessage(world, 3 + 3 * i, message);
      ghost var published := store.history;
      ackErr, ackNow := Ack(world, 4 + 3 * i, message.id, publishErr == None, message.attempt, ErrText(publishErr));
      ContinuesTransitive(store.history, published, old(store.history));
    }

    /** The same, keeping track of the batch while nothing disturbs it. */
    method Deliver(world: World, i: nat, message: ClaimedMessage, ghost t0: Table, ghost ids: seq<OutboxId>, ghost txNow: Time,
                   ghost quiet: bool)
      returns (publishErr: Option<string>, ackErr: Option<AckFailure>)
      requires Valid() && Phase().Publishing? && Phase().pos < |Phase().batch| && Phase().batch[Phase().pos] == message
      requires i < |ids| && ids[i] == message.id
      requires quiet ==> Undisturbed(world) && Fits(t0, ids, i, message) && Steady(world, t0, ids, i, txNow)
      modifies store
      ensures Valid() && Phase() == Publishing(old(Phase()).batch, old(Phase()).pos + 1)
      ensures OnlyScriptsTick(world, old(store.now), store.now) && publishErr == world.publish(3 + 3 * i)
      ensures RelaySafety.NewestBatch(store.history, workerID) == RelaySafety.NewestBatch(old(store.history), workerID)
      ensures OneDelivered(store.history, old(store.history), workerID, Handover(message.id, publishErr == None), MoveOf(ackErr, publishErr == None, message.attempt))
      ensures ackErr == Some(StatementFailed) <==> world.fails(4 + 3 * i)
      ensures quiet ==> Steady(world, t0, ids, i + 1, txNow)
    {
      ghost var t := store.rows;
      ghost var ackNow;
      publishErr, ackErr, ackNow := PublishAndAck(world, i, message);
      if quiet && store.now < txNow + LeaseLength(cfg) {
        MidwayStep(t0, t, ids, i, txNow, message, publishErr == None, ackNow, world.clientClock(4 + 3 * i), ErrText(publishErr));
        ToldStep(world, t0, t, ids, i, txNow, message, ackNow, ErrText(publishErr));
      }
    }

    /** One more row published and acked, and added to the summary. */
    lemma AccountedNext(earlier: History, mid: History, later: History, stats: RunStats, next: RunStats,
                        calls: seq<Handover>, handed: Handover, made: Option<Move>)
      requires Accounted(earlier, mid, stats, calls) && OneDelivered(later, mid, workerID, handed, made)
      requires next.published == stats.published + if made == Some(ToSent) then 1 else 0
      requires next.failed == stats.failed + if made == Some(ToPending) || made == Some(ToFailed) then 1 else 0
      requires next.leaseLost == stats.leaseLost + if made == Some(Untouched) then 1 else 0
      ensures Accounted(earlier, later, next, calls + [handed])
    {
      ContinuesTransitive(later, mid, earlier);
    }

    /** Delivers the i-th message and adds the outcome to the summary; `made` is what its ack did. */
    method DeliverAndTally(world: World, claimed: seq<ClaimedMessage>, i: nat, stats: RunStats, ackErrs: seq<AckFailure>,
                           ghost t0: Table, ghost txNow: Time, ghost quiet: bool)
      returns (next: RunStats, errs: seq<AckFailure>, ghost made: Option<Move>)
      requires Valid() && i < |claimed| && Phase() == Publishing(claimed, i)
      requires quiet ==> Undisturbed(world) && Fits(t0, BatchIds(claimed), i, claimed[i])
      requires quiet ==> Steady(world, t0, BatchIds(claimed), i, txNow)
      modifies store
      ensures Valid() && Phase() == Publishing(claimed, i + 1) && OnlyScriptsTick(world, old(store.now), store.now)
      ensures RelaySafety.NewestBatch(store.history, workerID) == RelaySafety.NewestBatch(old(store.history), workerID)
      ensures OneDelivered(store.history, old(store.history), workerID,
                           Handover(claimed[i].id, world.publish(3 + 3 * i) == None), made)
      ensures Tallied(stats, ackErrs, next, errs, made)
      ensures made == None <==> world.fails(4 + 3 * i)
      ensures quiet ==> Steady(world, t0, BatchIds(claimed), i + 1, txNow)
    {
      var publishErr, ackErr := Deliver(world, i, claimed[i], t0, BatchIds(claimed), txNow, quiet);
      made := MoveOf(ackErr, publishErr == None, claimed[i].attempt);
      next, errs := stats, ackErrs;
      if ackErr.Some? {
        if ackErr == Some(LeaseLost) {
          next := next.(leaseLost := next.leaseLost + 1);
        }
        errs := errs + [ackErr.value];
      } else if publishErr.Some? {
        next := next.(failed := next.failed + 1);
      } else {
        next := next.(published := next.published + 1);
      }
    }

    /** One ack more: in one of the counts by what it did, or among the errors. */
    static ghost predicate Tallied(stats: RunStats, ackErrs: seq<AckFailure>, next: RunStats, errs: seq<AckFailure>, made: Option<Move>) {
      && next.published == stats.published + (if made == Some(ToSent) then 1 else 0)
      && next.failed == stats.failed + (if made == Some(ToPending) || made == Some(ToFailed) then 1 else 0)
      && next.leaseLost == stats.leaseLost + (if made == Some(Untouched) then 1 else 0)
      && next.published + next.failed + |errs| == stats.published + stats.failed + |ackErrs| + 1
      && |errs| - next.leaseLost == |ackErrs| - stats.leaseLost + (if made == None then 1 else 0)
      && multiset(errs)[LeaseLost] == multiset(ackErrs)[LeaseLost] + (if made == Some(Untouched) then 1 else 0)
    }

    /**
     * After n rows: each is in one of two counts or has an error, LeaseLost of the errors are
     * lost leases, and the others are the acks whose statement failed.
     */
    static ghost predicate AddsUp(world: World, n: nat, stats: RunStats, ackErrs: seq<AckFailure>) {
      && stats.published + stats.failed + |ackErrs| == n
      && stats.leaseLost == multiset(ackErrs)[LeaseLost]
      && |ackErrs| == stats.leaseLost + FailingAcks(world, n)
    }

    static lemma AddsUpNext(world: World, i: nat, stats: RunStats, ackErrs: seq<AckFailure>, next: RunStats,
                            errs: seq<AckFailure>, made: Option<Move>)
      requires AddsUp(world, i, stats, ackErrs) && Tallied(stats, ackErrs, next, errs, made)
      requires made == None <==> world.fails(4 + 3 * i)
      ensures AddsUp(world, i + 1, next, errs)
    {
    }

    /** One turn of the loop over the batch. */
    method DeliverNext(world: World, claimed: seq<ClaimedMessage>, i: nat, stats: RunStats, ackErrs: seq<AckFailure>,
                       ghost earlier: History, ghost t0: Table, ghost txNow: Time, ghost quiet: bool)
      returns (next: RunStats, errs: seq<AckFailure>)
      requires Valid() && i < |claimed| && Phase() == Publishing(claimed, i)
      requires Accounted(earlier, store.history, stats, Answers(world, BatchIds(claimed))[..i])
      requires AddsUp(world, i, stats, ackErrs)
      requires quiet ==> Undisturbed(world) && Fits(t0, BatchIds(claimed), i, claimed[i])
      requires quiet ==> Steady(world, t0, BatchIds(claimed), i, txNow)
      modifies store
      ensures Valid() && Phase() == Publishing(claimed, i + 1) && OnlyScriptsTick(world, old(store.now), store.now)
      ensures RelaySafety.NewestBatch(store.history, workerID) == RelaySafety.NewestBatch(old(store.history), workerID)
      ensures Accounted(earlier, store.history, next, Answers(world, BatchIds(claimed))[..i + 1])
      ensures AddsUp(world, i + 1, next, errs)
      ensures quiet ==> Steady(world, t0, BatchIds(claimed), i + 1, txNow)
    {
      ghost var h0 := store.history;
      ghost var made;
      next, errs, made := DeliverAndTally(world, claimed, i, stats, ackErrs, t0, txNow, quiet);
      AccountedRow(earlier, h0, store.history, stats, next, world, claimed, i, made);
      AddsUpNext(world, i, stats, ackErrs, next, errs, made);
    }

    lemma AccountedRow(earlier: History, mid: History, later: History, stats: RunStats, next: RunStats, world: World,
                       claimed: seq<ClaimedMessage>, i: nat, made: Option<Move>)
      requires i < |claimed| && Accounted(earlier, mid, stats, Answers(world, BatchIds(claimed))[..i])
      requires OneDelivered(later, mid, workerID, Handover(claimed[i].id, world.publish(3 + 3 * i) == None), made)
      requires next.published == stats.published + if made == Some(ToSent) then 1 else 0
      requires next.failed == stats.failed + if made == Some(ToPending) || made == Some(ToFailed) then 1 else 0
      requires next.leaseLost == stats.leaseLost + if made == Some(Untouched) then 1 else 0
      ensures Accounted(earlier, later, next, Answers(world, BatchIds(claimed))[..i + 1])
    {
      var calls := Answers(world, BatchIds(claimed));
      assert calls[..i + 1] == calls[..i] + [calls[i]];
      AccountedNext(earlier, mid, later, stats, next, calls[..i], calls[i], made);
    }

    /** The loop over the claimed batch: a lost lease, a failed ack or a failed publish does not stop it. */
    method DeliverBatch(world: World, claimed: seq<ClaimedMessage>, ghost t0: Table, ghost txNow: Time, ghost quiet: bool)
      returns (stats: RunStats, ackErrs: seq<AckFailure>)
      requires Valid() && Phase() == Publishing(claimed, 0)
      requires quiet ==> Undisturbed(world) && store.locks == map[] && FreshBatch(t0, store.rows, claimed, txNow)
      modifies store
      ensures Valid() && Phase() == Publishing(claimed, |claimed|) && OnlyScriptsTick(world, old(store.now), store.now)
      ensures RelaySafety.NewestBatch(store.history, workerID) == RelaySafety.NewestBatch(old(store.history), workerID)
      ensures AddsUp(world, |claimed|, stats, ackErrs)
      ensures Accounted(old(store.history), store.history, stats, Answers(world, BatchIds(claimed)))
      ensures quiet ==>
        (store.locks == map[]
         && (store.now < txNow + LeaseLength(cfg) ==>
               Drain.Round(t0, store.rows, BatchIds(claimed), cfg.maxAttempts)
               && Told(world, store.rows, BatchIds(claimed), |claimed|)))
    {
      ghost var ids := BatchIds(claimed);
      stats, ackErrs := RunStats(0, 0, 0), [];
      for i := 0 to |claimed|
        invariant Valid() && Phase() == Publishing(claimed, i) && OnlyScriptsTick(world, old(store.now), store.now)
        invariant RelaySafety.NewestBatch(store.history, workerID) == RelaySafety.NewestBatch(old(store.history), workerID)
        invariant AddsUp(world, i, stats, ackErrs)
        invariant Accounted(old(store.history), store.history, stats, Answers(world, ids)[..i])
        invariant quiet ==> Steady(world, t0, ids, i, txNow)
      {
        stats, ackErrs := DeliverNext(world, claimed, i, stats, ackErrs, old(store.history), t0, txNow, quiet);
      }
      assert Answers(world, ids)[..|claimed|] == Answers(world, ids);
    }

    method EndRun()
      requires Valid() && Phase().Publishing? && Phase().pos == |Phase().batch|
      modifies store
      ensures Valid() && Phase() == Idle
      ensures store.rows == old(store.rows) && store.locks == old(store.locks) && store.now == old(store.now)
      ensures RelaySafety.NewestBatch(store.history, workerID) == RelaySafety.NewestBatch(old(store.history), workerID)
      ensures NothingDone(store.history, old(store.history), workerID)
    {
      Step(Finish(workerID));
    }

    /**
     * One tick of the relay. A claim that fails ends it; otherwise every claimed row is
     * accounted for once: the stats count acks by what they did to the table, where published
     * rows went to sent, failed ones back to pending or to failed, and a lost lease left the
     * table untouched; failed ack statements are the rest of the errors returned.
     * Undisturbed, the call is a round of the drain.
     */
    method RunOnce(world: World)
      returns (stats: RunStats, ackErrs: seq<AckFailure>, claimFailed: bool, ghost claimedIds: seq<OutboxId>, ghost txNow: Time)
      requires Valid() && Phase() == Idle
      modifies store
      ensures Valid() && Phase() == Idle && OnlyScriptsTick(world, old(store.now), store.now)
      ensures claimFailed <==> world.fails(0) || world.fails(1)
      ensures if claimFailed then
                RelaySafety.NewestBatch(store.history, workerID) == RelaySafety.NewestBatch(old(store.history), workerID)
                && claimedIds == []
              else
                NewBatch(old(store.history), store.history, claimedIds)
                && old(store.now) <= txNow && Queried(old(store.history), store.history, txNow, claimedIds)
      ensures AddsUp(world, |claimedIds|, stats, ackErrs)
      ensures Accounted(old(store.history), store.history, stats, Answers(world, claimedIds))
      ensures NothingFails(world) ==>
        !claimFailed && stats.published + stats.failed + stats.leaseLost == |claimedIds|
      ensures Undisturbed(world) && old(store.locks) == map[] ==> store.locks == map[]
      ensures (Undisturbed(world) && old(store.locks) == map[]
               && store.now < old(store.now) + LeaseLength(cfg)) ==>
        && ClaimOrder.Selection(old(store.rows), {}, txNow, cfg.batchSize, claimedIds)
        && Drain.Round(old(store.rows), store.rows, claimedIds, cfg.maxAttempts)
        && Told(world, store.rows, claimedIds, |claimedIds|)
    {
      ghost var t0, quiet := store.rows, Undisturbed(world) && store.locks == map[];
      stats, ackErrs, claimedIds := RunStats(0, 0, 0), [], [];
      var claimed;
      claimed, txNow := ClaimBatch(world);
      claimFailed := claimed == None;
      if claimed.Some? {
        ghost var h1 := store.history;
        claimedIds := BatchIds(claimed.value);
        stats, ackErrs := DeliverBatch(world, claimed.value, t0, txNow, quiet);
        ghost var h2 := store.history;
        EndRun();
        ContinuesTransitive(h2, h1, old(store.history));
        ContinuesTransitive(store.history, h2, old(store.history));
        ContinuesTransitive(store.history, h2, h1);
        QueriedWithin(old(store.history), old(store.history), h1, store.history, txNow, claimedIds);
        if NothingFails(world) {
          NoAckFails(world, |claimedIds|);
        }
      }
    }

    /** The table before a tick, the rows it claimed, the table after it: one round of the drain. */
    ghost predicate IsRound(t: Table, t': Table, ids: seq<OutboxId>) {
      && (exists txNow :: ClaimOrder.Selection(t, {}, txNow, cfg.batchSize, ids))
      && Drain.Round(t, t', ids, cfg.maxAttempts)
    }

    /** An undisturbed call. */
    method Tick(world: World) returns (ghost ids: seq<OutboxId>)
      requires Valid() && Phase() == Idle && Undisturbed(world) && store.locks == map[]
      modifies store
      ensures Valid() && Phase() == Idle && store.locks == map[]
      ensures IsTick(world, old(store.history), store.history, ids) && OnlyScriptsTick(world, old(store.now), store.now)
      ensures store.now < old(store.now) + LeaseLength(cfg) ==> IsRound(old(store.rows), store.rows, ids)
    {
      var stats, ackErrs, failed; ghost var txNow;
      stats, ackErrs, failed, ids, txNow := RunOnce(world);
    }

    /** In between this worker has claimed these rows, all that the query returned, and handed each over once. */
    ghost predicate IsTick(world: World, earlier: History, later: History, ids: seq<OutboxId>) {
      && Continues(later, earlier) && NewBatch(earlier, later, ids)
      && (exists txNow :: Queried(earlier, later, txNow, ids))
      && PublishLog(later, workerID) == PublishLog(earlier, workerID) + Answers(world, ids)
    }

    /** The tables and the clock after each of these histories. */
    ghost predicate Observed(hs: seq<History>, ts: seq<Table>, times: seq<Time>)
      requires |hs| == |ts| == |times|
    {
      forall i :: 0 <= i < |hs| ==> ObservedAt(hs[i], ts[i], times[i])
    }

    ghost predicate ObservedAt(h: History, t: Table, time: Time) {
      After(h).Some? && After(h).value.rows == t && After(h).value.now == time
    }

    /** Each of these calls made the run go from one of these histories to the next. */
    ghost predicate Ticked(worlds: seq<World>, hs: seq<History>, sels: seq<seq<OutboxId>>, times: seq<Time>)
      requires |hs| == |times| == |sels| + 1 && |sels| <= |worlds|
    {
      forall i :: 0 <= i < |sels| ==>
        IsTick(worlds[i], hs[i], hs[i + 1], sels[i]) && OnlyScriptsTick(worlds[i], times[i], times[i + 1])
    }

    /**
     * The caller's ticker, undisturbed: `hs` are the histories between the ticks, `ts` and
     * `times` their tables and clock, `sels` what each tick claimed. If every tick ends before
     * its leases do, the ticks are rounds of the drain, and as many as the open rows have
     * budget together leave every row sent or failed.
     */
    method RunTicks(worlds: seq<World>)
      returns (ghost hs: seq<History>, ghost ts: seq<Table>, ghost sels: seq<seq<OutboxId>>, ghost times: seq<Time>)
      requires Valid() && Phase() == Idle
      requires forall i :: 0 <= i < |worlds| ==> Undisturbed(worlds[i])
      requires store.locks == map[] && Drain.AllAtRest(store.rows)
      modifies store
      ensures Valid() && Phase() == Idle && store.locks == map[]
      ensures |hs| == |ts| == |times| == |worlds| + 1 && |sels| == |worlds|
      ensures hs[0] == old(store.history) && hs[|worlds|] == store.history
      ensures Observed(hs, ts, times) && Ticked(worlds, hs, sels, times)
      ensures InTime(times) ==> Drain.Rounds(ts, sels, cfg.batchSize, cfg.maxAttempts)
      ensures InTime(times) && |worlds| >= Drain.Total(Drain.Budgets(old(store.rows), cfg.maxAttempts)) ==>
        Drain.AllSettled(store.rows)
      ensures InTime(times) ==> forall id :: ClaimedSoon(old(store.rows), sels, id)
      ensures LeaseLength(cfg) > 0 && Silent(worlds) ==> InTime(times)
    {
      hs, ts, sels, times := [store.history], [store.rows], [], [store.now];
      for i := 0 to |worlds|
        invariant Valid() && Phase() == Idle && store.locks == map[]
        invariant |hs| == |ts| == |times| == i + 1 && |sels| == i
        invariant hs[0] == old(store.history) && hs[i] == store.history
        invariant Observed(hs, ts, times) && Ticked(worlds, hs, sels, times)
        invariant InTime(times) ==> Drain.Rounds(ts, sels, cfg.batchSize, cfg.maxAttempts)
      {
        ghost var ids := Tick(worlds[i]);
        TicksGoOn(worlds, hs, ts, sels, times, store.history, store.rows, ids, store.now);
        RoundsGoOn(ts, sels, times, store.rows, ids, store.now);
        hs, ts, sels, times := hs + [store.history], ts + [store.rows], sels + [ids], times + [store.now];
      }
      RoundsSettle(ts, sels, times);
      if Silent(worlds) && LeaseLength(cfg) > 0 {
        SilentIsInTime(worlds, hs, sels, times);
      }
    }

    lemma TicksGoOn(worlds: seq<World>, hs: seq<History>, ts: seq<Table>, sels: seq<seq<OutboxId>>, times: seq<Time>,
                    h: History, t: Table, ids: seq<OutboxId>, now: Time)
      requires |hs| == |ts| == |times| == |sels| + 1 && |sels| < |worlds|
      requires Observed(hs, ts, times) && Ticked(worlds, hs, sels, times) && ObservedAt(h, t, now)
      requires IsTick(worlds[|sels|], hs[|sels|], h, ids) && OnlyScriptsTick(worlds[|sels|], times[|sels|], now)
      ensures Observed(hs + [h], ts + [t], times + [now]) && Ticked(worlds, hs + [h], sels + [ids], times + [now])
    {
    }

    /** No script does anything at all. */
    ghost predicate Silent(worlds: seq<World>) {
      forall i, k: nat :: 0 <= i < |worlds| ==> worlds[i].script(k) == []
    }

    lemma SilentIsInTime(worlds: seq<World>, hs: seq<History>, sels: seq<seq<OutboxId>>, times: seq<Time>)
      requires |hs| == |times| == |sels| + 1 && |sels| == |worlds|
      requires Silent(worlds) && LeaseLength(cfg) > 0 && Ticked(worlds, hs, sels, times)
      ensures InTime(times)
    {
      forall i | 0 <= i < |times| - 1 ensures TickInTime(times, i) {
        assert NoLaterThan(worlds[i], times[i]);
      }
    }

    /** The i-th tick ended before the leases it granted. */
    ghost predicate TickInTime(times: seq<Time>, i: nat)
      requires i + 1 < |times|
    {
      times[i + 1] < times[i] + LeaseLength(cfg)
    }

    ghost predicate InTime(times: seq<Time>) {
      forall i :: 0 <= i < |times| - 1 ==> TickInTime(times, i)
    }

    /** A row that was pending is claimed by one of the first floor(P / batchSize) + 1 ticks, if there were that many. */
    ghost predicate ClaimedSoon(t: Table, sels: seq<seq<OutboxId>>, id: OutboxId)
      requires cfg.batchSize > 0
    {
      id in t && t[id].status == Pending ==>
        var last := Drain.Total(Drain.Ahead(t, id, cfg.maxAttempts)) / cfg.batchSize;
        |sels| > last ==> exists k :: 0 <= k <= last && id in sels[k]
    }

    lemma RoundsReach(ts: seq<Table>, sels: seq<seq<OutboxId>>, id: OutboxId)
      requires Usable(cfg) && Drain.Rounds(ts, sels, cfg.batchSize, cfg.maxAttempts)
      ensures ClaimedSoon(ts[0], sels, id)
    {
      if id in ts[0] && ts[0][id].status == Pending
         && |sels| > Drain.Total(Drain.Ahead(ts[0], id, cfg.maxAttempts)) / cfg.batchSize {
        Drain.ClaimedWithinBound(ts, sels, cfg.batchSize, cfg.maxAttempts, id);
      }
    }

    lemma RoundsSettle(ts: seq<Table>, sels: seq<seq<OutboxId>>, times: seq<Time>)
      requires Usable(cfg) && |ts| == |sels| + 1
      requires InTime(times) ==> Drain.Rounds(ts, sels, cfg.batchSize, cfg.maxAttempts)
      ensures InTime(times) && |sels| >= Drain.Total(Drain.Budgets(ts[0], cfg.maxAttempts)) ==> Drain.AllSettled(ts[|sels|])
      ensures InTime(times) ==> forall id :: ClaimedSoon(ts[0], sels, id)
    {
      if InTime(times) {
        forall id ensures ClaimedSoon(ts[0], sels, id) {
          RoundsReach(ts, sels, id);
        }
      }
      if InTime(times) && |sels| >= Drain.Total(Drain.Budgets(ts[0], cfg.maxAttempts)) {
        Drain.DrainEnds(ts, sels, cfg.batchSize, cfg.maxAttempts);
      }
    }

    lemma RoundsGoOn(ts: seq<Table>, sels: seq<seq<OutboxId>>, times: seq<Time>, t: Table, sel: seq<OutboxId>, now: Time)
      requires |ts| == |times| == |sels| + 1
      requires InTime(times) ==> Drain.Rounds(ts, sels, cfg.batchSize, cfg.maxAttempts)
      requires now < times[|sels|] + LeaseLength(cfg) ==> IsRound(ts[|sels|], t, sel)
      ensures InTime(times + [now]) ==> Drain.Rounds(ts + [t], sels + [sel], cfg.batchSize, cfg.maxAttempts)
    {
      if InTime(times + [now]) {
        forall i | 0 <= i < |times| - 1 ensures TickInTime(times, i) {
          assert TickInTime(times + [now], i);
        }
        assert TickInTime(times + [now], |sels|);
        Drain.RoundsExtend(ts, sels, cfg.batchSize, cfg.maxAttempts, t, sel);
      }
    }

    /**
     * The run went on: since then this worker has handed over exactly these rows, once each and
     * in this order, with these results, and the stats count its acks by what each did.
     */
    ghost predicate Accounted(earlier: History, later: History, stats: RunStats, calls: seq<Handover>) {
      && Continues(later, earlier)
      && PublishLog(later, workerID) == PublishLog(earlier, workerID) + calls
      && Moves(later, workerID, ToSent) == Moves(earlier, workerID, ToSent) + stats.published
      && Moves(later, workerID, ToPending) + Moves(later, workerID, ToFailed)
         == Moves(earlier, workerID, ToPending) + Moves(earlier, workerID, ToFailed) + stats.failed
      && Moves(later, workerID, Untouched) == Moves(earlier, workerID, Untouched) + stats.leaseLost
    }

    /** The first i rows of the batch have had their turn, the others are still under the fresh lease. */
    ghost predicate Midway(t0: Table, t: Table, ids: seq<OutboxId>, i: nat, txNow: Time)
      requires i <= |ids|
    {
      && t.Keys == t0.Keys
      && (forall j :: 0 <= j < i ==> ids[j] in t0 && Drain.Turn(t0[ids[j]], t[ids[j]], cfg.maxAttempts))
      && (forall j :: i <= j < |ids| ==> ids[j] in t0 && t[ids[j]] == ClaimedRow(t0[ids[j]], workerID, txNow, LeaseLength(cfg)))
      && (forall id :: id in t0 && id !in ids ==> t[id] == t0[id])
    }

    /** The first i rows show what the publisher answered: sent at the client's time, or the text of the error. */
    static ghost predicate Told(world: World, t: Table, ids: seq<OutboxId>, i: nat)
      requires i <= |ids|
    {
      forall j :: 0 <= j < i ==> Shows(t, ids[j], world.publish(3 + 3 * j), world.clientClock(4 + 3 * j))
    }

    static ghost predicate Shows(t: Table, id: OutboxId, answer: Option<string>, sentAt: Time) {
      && id in t && t[id].lastError == answer
      && (if answer == None then t[id].status == Sent && t[id].sentAt == Some(sentAt) else t[id].status != Sent)
    }

    /** Nothing is locked, and while the leases last the batch is midway. */
    ghost predicate Steady(world: World, t0: Table, ids: seq<OutboxId>, i: nat, txNow: Time)
      requires i <= |ids|
      reads this, store
    {
      && store.locks == map[]
      && (store.now < txNow + LeaseLength(cfg) ==> Midway(t0, store.rows, ids, i, txNow) && Told(world, store.rows, ids, i))
    }

    /** The entry is the i-th of the distinct claimed rows, with its attempt count after the claim. */
    ghost predicate Fits(t0: Table, ids: seq<OutboxId>, i: nat, e: ClaimedMessage) {
      Distinct(ids) && i < |ids| && e.id == ids[i] && e.id in t0 && e.attempt == t0[e.id].attempts + 1
    }

    ghost predicate FreshBatch(t0: Table, t: Table, batch: seq<ClaimedMessage>, txNow: Time) {
      && Midway(t0, t, BatchIds(batch), 0, txNow)
      && forall j :: 0 <= j < |batch| ==> Fits(t0, BatchIds(batch), j, batch[j])
    }

    lemma MidwayStart(t0: Table, t: Table, batch: seq<ClaimedMessage>, txNow: Time)
      requires ClaimOrder.Selection(t0, {}, txNow, cfg.batchSize, BatchIds(batch))
      requires t == ClaimRows(t0, BatchIds(batch), workerID, txNow, LeaseLength(cfg))
      requires forall i :: 0 <= i < |batch| ==> batch[i].id in t0 && batch[i].attempt == t0[batch[i].id].attempts + 1
      ensures FreshBatch(t0, t, batch, txNow)
    {
      var ids := BatchIds(batch);
      forall j | 0 <= j < |ids| ensures ids[j] in t0 {
        assert ClaimOrder.Available(t0, {}, txNow, ids[j]);
      }
    }

    lemma MidwayStep(t0: Table, t: Table, ids: seq<OutboxId>, i: nat, txNow: Time, e: ClaimedMessage, ok: bool,
                     ackNow: Time, sentAt: Time, err: string)
      requires Fits(t0, ids, i, e) && Midway(t0, t, ids, i, txNow) && ackNow < txNow + LeaseLength(cfg)
      ensures Midway(t0, AckRows(t, workerID, e, ok, ackNow, cfg.maxAttempts, sentAt, err), ids, i + 1, txNow)
    {
      assert Owns(t[e.id], workerID, ackNow);
    }

    lemma ToldStep(world: World, t0: Table, t: Table, ids: seq<OutboxId>, i: nat, txNow: Time, e: ClaimedMessage, ackNow: Time,
                   err: string)
      requires Fits(t0, ids, i, e) && Midway(t0, t, ids, i, txNow) && ackNow < txNow + LeaseLength(cfg)
      requires Told(world, t, ids, i)
      requires world.publish(3 + 3 * i).Some? ==> err == world.publish(3 + 3 * i).value
      ensures Told(world, AckRows(t, workerID, e, world.publish(3 + 3 * i) == None, ackNow, cfg.maxAttempts,
                                  world.clientClock(4 + 3 * i), err), ids, i + 1)
    {
      var answer, sentAt := world.publish(3 + 3 * i), world.clientClock(4 + 3 * i);
      AckShows(t, e, answer, ackNow, sentAt, err);
      ToldNext(world, t, AckRows(t, workerID, e, answer == None, ackNow, cfg.maxAttempts, sentAt, err), ids, i);
    }

    lemma AckShows(t: Table, e: ClaimedMessage, answer: Option<string>, ackNow: Time, sentAt: Time, err: string)
      requires e.id in t && Owns(t[e.id], workerID, ackNow) && (answer.Some? ==> err == answer.value)
      ensures var t' := AckRows(t, workerID, e, answer == None, ackNow, cfg.maxAttempts, sentAt, err);
        Shows(t', e.id, answer, sentAt) && forall id :: id in t && id != e.id ==> id in t' && t'[id] == t[id]
    {
    }

    static lemma ToldNext(world: World, t: Table, t': Table, ids: seq<OutboxId>, i: nat)
      requires i < |ids| && Distinct(ids) && Told(world, t, ids, i)
      requires Shows(t', ids[i], world.publish(3 + 3 * i), world.clientClock(4 + 3 * i))
      requires forall id :: id in t && id != ids[i] ==> id in t' && t'[id] == t[id]
      ensures Told(world, t', ids, i + 1)
    {
      forall j | 0 <= j < i ensures Shows(t', ids[j], world.publish(3 + 3 * j), world.clientClock(4 + 3 * j)) {
        assert Shows(t, ids[j], world.publish(3 + 3 * j), world.clientClock(4 + 3 * j));
      }
    }

    predicate Waits(id: OutboxId)
      reads store
    {
      id in store.rows && store.rows[id].claimedBy == Some(workerID) && id in store.locks
    }

    /** Waits until no claim transaction holds a row leased to this worker. */
    method AwaitLeases(world: World)
      requires Valid() && !Phase().Stopped?
      modifies store
      ensures Valid() && !Phase().Stopped? && Continues(store.history, old(store.history)) && store.now == old(store.now)
      ensures forall id :: id in store.rows ==> !Waits(id)
      ensures (forall id :: id in old(store.rows) ==> !old(Waits(id))) ==>
        (store.history == old(store.history) && store.Snapshot() == old(store.Snapshot()))
    {
      while exists id :: id in store.rows && Waits(id)
        invariant Valid() && !Phase().Stopped? && Continues(store.history, old(store.history)) && store.now == old(store.now)
        invariant (forall id :: id in old(store.rows) ==> !old(Waits(id))) ==>
          (store.history == old(store.history) && store.Snapshot() == old(store.Snapshot()))
        decreases store.locks.Keys
      {
        var id :| id in store.rows && Waits(id);
        store.EndHolder(id, world.holderCommits(|store.locks|));
      }
    }

    /**
     * Gives back every lease of this worker, without giving back the attempts. `moment` is
     * when the claim transactions the statement waits for have ended; at once if there are none.
     */
    method Release(world: World) returns (ghost moment: History, ghost mine: set<OutboxId>)
      requires Valid() && !Phase().Stopped?
      modifies store
      ensures Valid() && Continues(moment, old(store.history)) && After(moment).Some?
      ensures store.history == Then(moment, RelayProtocol.Action.Release(workerID, mine))
      ensures (forall id :: id in old(store.rows) ==> !old(Waits(id))) ==> moment == old(store.history)
      ensures store.workers == After(moment).value.workers && store.rows.Keys == After(moment).value.rows.Keys
      ensures forall id :: id in store.rows ==> store.rows[id].claimedBy != Some(workerID)
      ensures var found := After(moment).value.rows;
        forall id :: id in store.rows ==>
          store.rows[id] == (if found[id].claimedBy != Some(workerID) then found[id] else
            found[id].(status := Pending, claimedBy := None, claimedAt := None, leaseExpiresAt := None))
    {
      AwaitLeases(world);
      moment := store.history;
      mine := ReleaseUnlocked();
    }

    method ReleaseUnlocked() returns (ghost freed: set<OutboxId>)
      requires Valid() && !Phase().Stopped?
      requires forall id :: id in store.rows ==> !Waits(id)
      modifies store
      ensures Valid() && store.workers == old(store.workers) && store.rows.Keys == old(store.rows).Keys
      ensures store.history == Then(old(store.history), RelayProtocol.Action.Release(workerID, freed))
      ensures forall id :: id in store.rows ==> store.rows[id].claimedBy != Some(workerID)
      ensures forall id :: id in store.rows ==>
        store.rows[id] == (if old(store.rows)[id].claimedBy != Some(workerID) then old(store.rows)[id] else
          old(store.rows)[id].(status := Pending, claimedBy := None, claimedAt := None, leaseExpiresAt := None))
    {
      RelaySafety.Reachable(store.history, store.Snapshot());
      var mine := set id | id in store.rows && store.rows[id].claimedBy == Some(workerID)
                                            && store.rows[id].status == Processing;
      assert forall id :: id in mine ==> !Waits(id);
      freed := mine;
      store.Perform(RelayProtocol.Action.Release(workerID, mine));
    }
  }

  /** Why an ack is reported as an error: the lease was not this worker's any more, or the statement failed. */
  datatype AckFailure = LeaseLost | StatementFailed

  /** RunOnce's summary: acked publishes, acked failures, and acks that found the lease gone. */
  datatype RunStats = RunStats(published: nat, failed: nat, leaseLost: nat)
}
