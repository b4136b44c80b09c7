/**
 * The outbox relay as a step machine. Any number of workers share one table; every
 * statement of a worker is a step of its own, so the other workers, the clock,
 * operators and writers act between any two of them.
 */
module RelayProtocol {
  import opened Common
  import opened Entities
  import opened Outbox

  /** What the claim query returned for one row. */
  datatype Picked = Picked(id: OutboxId, message: OutboxMessage, attempts: nat)

  /** The entry of a batch, with the attempt count the caller is told. */
  datatype ClaimedMessage = ClaimedMessage(id: OutboxId, message: OutboxMessage, attempt: nat)

  datatype Phase =
    | Idle
    | ClaimOpen(txNow: Time)
    | Selected(txNow: Time, picked: seq<Picked>)
    | Publishing(batch: seq<ClaimedMessage>, pos: nat)
    | Published(batch: seq<ClaimedMessage>, pos: nat, ok: bool)
    | Acking(batch: seq<ClaimedMessage>, pos: nat, ok: bool, txNow: Time)
    | Stopped
  {
    predicate Busy() {
      Publishing? || Published? || Acking?
    }
  }

  datatype Worker = Worker(cfg: Config, phase: Phase)

  datatype State = State(
    now: Time,
    rows: Table,
    locks: map<OutboxId, WorkerId>,
    workers: map<WorkerId, Worker>)

  datatype Action =
    | Start(w: WorkerId, cfg: Config)
    | Tick(to: Time)
    | Insert(id: OutboxId, message: OutboxMessage, createdAt: Time)
    | Requeue(id: OutboxId)
    | Begin(w: WorkerId)
    | Select(w: WorkerId, sel: seq<OutboxId>)
    | Commit(w: WorkerId, ids: seq<OutboxId>)
    | Rollback(w: WorkerId)
    | Publish(w: WorkerId, id: OutboxId, ok: bool)
    | AckBegin(w: WorkerId)
    | AckApply(w: WorkerId, sentAt: Time, err: string)
    | AckError(w: WorkerId)
    | Finish(w: WorkerId)
    | Release(w: WorkerId, freed: set<OutboxId>)
    | Crash(w: WorkerId)

  type History = Run<Action>

  const INITIAL := State(0, map[], map[], map[])

  function Ids(picked: seq<Picked>): (ids: seq<OutboxId>)
    ensures |ids| == |picked|
    ensures forall i :: 0 <= i < |ids| ==> ids[i] == picked[i].id
  {
    seq(|picked|, i requires 0 <= i < |picked| => picked[i].id)
  }

  function BatchIds(batch: seq<ClaimedMessage>): (ids: seq<OutboxId>)
    ensures |ids| == |batch|
    ensures forall i :: 0 <= i < |ids| ==> ids[i] == batch[i].id
  {
    seq(|batch|, i requires 0 <= i < |batch| => batch[i].id)
  }

  predicate Distinct(ids: seq<OutboxId>) {
    forall i, j :: 0 <= i < j < |ids| ==> ids[i] != ids[j]
  }

  /** Reads of the rows the query locks. */
  function PickRows(rows: Table, sel: seq<OutboxId>): (picked: seq<Picked>)
    requires forall i :: 0 <= i < |sel| ==> sel[i] in rows
    ensures |picked| == |sel|
    ensures forall i :: 0 <= i < |sel| ==> picked[i] == Picked(sel[i], rows[sel[i]].message, rows[sel[i]].attempts)
  {
    seq(|sel|, i requires 0 <= i < |sel| => Picked(sel[i], rows[sel[i]].message, rows[sel[i]].attempts))
  }

  /** The batch handed to the caller: attempt counts after the increment. */
  function BatchOf(picked: seq<Picked>): (batch: seq<ClaimedMessage>)
    ensures |batch| == |picked|
    ensures forall i :: 0 <= i < |picked| ==>
      batch[i] == ClaimedMessage(picked[i].id, picked[i].message, picked[i].attempts + 1)
  {
    seq(|picked|, i requires 0 <= i < |picked| =>
      ClaimedMessage(picked[i].id, picked[i].message, picked[i].attempts + 1))
  }

  function ClaimRows(rows: Table, ids: seq<OutboxId>, w: WorkerId, txNow: Time, lease: int): Table {
    map id | id in rows :: if id in ids then ClaimedRow(rows[id], w, txNow, lease) else rows[id]
  }

  function ReleaseRows(rows: Table, ids: set<OutboxId>): Table {
    map id | id in rows :: if id in ids then ReleasedRow(rows[id]) else rows[id]
  }

  function Unlock(locks: map<OutboxId, WorkerId>, w: WorkerId): map<OutboxId, WorkerId> {
    map id | id in locks && locks[id] != w :: locks[id]
  }

  function Lock(locks: map<OutboxId, WorkerId>, ids: seq<OutboxId>, w: WorkerId): map<OutboxId, WorkerId> {
    map id | id in locks.Keys + (set i | 0 <= i < |ids| :: ids[i]) :: if id in ids then w else locks[id]
  }

  /** Rows the claim query may return: unlocked, present and claimable at the transaction's NOW(). */
  predicate MayLock(s: State, txNow: Time, sel: seq<OutboxId>) {
    && Distinct(sel)
    && forall i :: 0 <= i < |sel| ==>
         sel[i] in s.rows && sel[i] !in s.locks && Claimable(s.rows[sel[i]], txNow)
  }

  /** Rows Release flips: processing rows of this worker that nobody has locked. */
  predicate MayRelease(s: State, w: WorkerId, ids: set<OutboxId>) {
    forall id :: id in ids ==>
      id in s.rows && id !in s.locks && s.rows[id].claimedBy == Some(w) && s.rows[id].status == Processing
  }

  predicate Enabled(s: State, a: Action) {
    match a
    case Start(w, cfg) => w !in s.workers && Usable(cfg)
    case Tick(to) => s.now <= to
    case Insert(id, _, _) => id !in s.rows
    case Requeue(id) => id in s.rows && s.rows[id].status == Failed && id !in s.locks
    case Begin(w) => w in s.workers && s.workers[w].phase.Idle?
    case Select(w, sel) =>
      && w in s.workers && s.workers[w].phase.ClaimOpen?
      && |sel| <= s.workers[w].cfg.batchSize
      && MayLock(s, s.workers[w].phase.txNow, sel)
    case Commit(w, ids) =>
      w in s.workers && s.workers[w].phase.Selected? && ids == Ids(s.workers[w].phase.picked)
    case Rollback(w) => w in s.workers && (s.workers[w].phase.ClaimOpen? || s.workers[w].phase.Selected?)
    case Publish(w, id, ok) =>
      && w in s.workers && s.workers[w].phase.Publishing?
      && s.workers[w].phase.pos < |s.workers[w].phase.batch|
      && id == s.workers[w].phase.batch[s.workers[w].phase.pos].id
    case AckBegin(w) => w in s.workers && s.workers[w].phase.Published?
    case AckApply(w, sentAt, err) =>
      && w in s.workers && s.workers[w].phase.Acking?
      && s.workers[w].phase.pos < |s.workers[w].phase.batch|
      && s.workers[w].phase.batch[s.workers[w].phase.pos].id !in s.locks
    case AckError(w) => w in s.workers && s.workers[w].phase.Acking?
    case Finish(w) =>
      && w in s.workers && s.workers[w].phase.Publishing?
      && s.workers[w].phase.pos == |s.workers[w].phase.batch|
    case Release(w, ids) => w in s.workers && !s.workers[w].phase.Stopped? && MayRelease(s, w, ids)
    case Crash(w) => w in s.workers
  }

  function SetPhase(s: State, w: WorkerId, p: Phase): State
    requires w in s.workers
  {
    s.(workers := s.workers[w := s.workers[w].(phase := p)])
  }

  /** Effect of the Ack statement on the whole table. */
  function AckRows(rows: Table, w: WorkerId, entry: ClaimedMessage, ok: bool, txNow: Time,
                   maxAttempts: int, sentAt: Time, err: string): Table
  {
    if entry.id in rows && Owns(rows[entry.id], w, txNow) then
      rows[entry.id := AckedRow(rows[entry.id], ok, entry.attempt, maxAttempts, sentAt, err)]
    else rows
  }

  function Apply(s: State, a: Action): State
    requires Enabled(s, a)
  {
    match a
    case Start(w, cfg) => s.(workers := s.workers[w := Worker(cfg, Idle)])
    case Tick(to) => s.(now := to)
    case Insert(id, m, createdAt) => s.(rows := s.rows[id := FreshRow(m, createdAt)])
    case Requeue(id) => s.(rows := s.rows[id := RequeuedRow(s.rows[id])])
    case Begin(w) => SetPhase(s, w, ClaimOpen(s.now))
    case Select(w, sel) =>
      SetPhase(s, w, Selected(s.workers[w].phase.txNow, PickRows(s.rows, sel))).(locks := Lock(s.locks, sel, w))
    case Commit(w, ids) =>
      var p := s.workers[w].phase;
      SetPhase(s, w, Publishing(BatchOf(p.picked), 0))
        .(rows := ClaimRows(s.rows, ids, w, p.txNow, LeaseLength(s.workers[w].cfg)), locks := Unlock(s.locks, w))
    case Rollback(w) => SetPhase(s, w, Idle).(locks := Unlock(s.locks, w))
    case Publish(w, id, ok) =>
      var p := s.workers[w].phase;
      SetPhase(s, w, Published(p.batch, p.pos, ok))
    case AckBegin(w) =>
      var p := s.workers[w].phase;
      SetPhase(s, w, Acking(p.batch, p.pos, p.ok, s.now))
    case AckApply(w, sentAt, err) =>
      var p := s.workers[w].phase;
      SetPhase(s, w, Publishing(p.batch, p.pos + 1))
        .(rows := AckRows(s.rows, w, p.batch[p.pos], p.ok, p.txNow, s.workers[w].cfg.maxAttempts, sentAt, err))
    case AckError(w) =>
      var p := s.workers[w].phase;
      SetPhase(s, w, Publishing(p.batch, p.pos + 1))
    case Finish(w) => SetPhase(s, w, Idle)
    case Release(w, ids) => s.(rows := ReleaseRows(s.rows, ids))
    case Crash(w) => SetPhase(s, w, Stopped).(locks := Unlock(s.locks, w))
  }

  /** The state a history leads to, or None when some action was not enabled. */
  function After(h: History): Option<State> {
    match h
    case Empty => Some(INITIAL)
    case Then(before, a) =>
      var s := After(before);
      if s.Some? && Enabled(s.value, a) then Some(Apply(s.value, a)) else None
  }
}
