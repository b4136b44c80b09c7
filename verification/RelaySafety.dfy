/** What every step of the relay keeps, and the safety of every run. */
module RelaySafety {
  import opened Common
  import opened Entities
  import opened Outbox
  import opened RelayProtocol

  // ---------------------------------------------------------------- histories

  /** A committed claim transaction: its position in the history, its worker and its rows. */
  datatype Claim = Claim(position: nat, worker: WorkerId, ids: seq<OutboxId>)

  /** The newest committed claim of a row, by any worker. */
  function NewestClaim(h: History, id: OutboxId): Option<Claim> {
    match h
    case Empty => None
    case Then(before, a) =>
      if a.Commit? && id in a.ids then Some(Claim(h.Length(), a.w, a.ids)) else NewestClaim(before, id)
  }

  /** The newest committed claim of a worker, on any rows. */
  function NewestBatch(h: History, w: WorkerId): Option<Claim> {
    match h
    case Empty => None
    case Then(before, a) =>
      if a.Commit? && a.w == w then Some(Claim(h.Length(), w, a.ids)) else NewestBatch(before, w)
  }

  // --------------------------------------------------------------- invariants

  ghost predicate RowsCoherent(s: State) {
    forall id :: id in s.rows ==> Coherent(s.rows[id])
  }

  /** A row under a claim transaction still is what that transaction read. */
  ghost predicate StillAsPicked(s: State, w: WorkerId, txNow: Time, p: Picked) {
    && p.id in s.rows
    && p.id in s.locks && s.locks[p.id] == w
    && Claimable(s.rows[p.id], txNow)
    && s.rows[p.id].attempts == p.attempts
    && s.rows[p.id].message == p.message
  }

  ghost predicate PhaseSound(s: State, w: WorkerId, p: Phase) {
    && (p.ClaimOpen? || p.Selected? || p.Acking? ==> p.txNow <= s.now)
    && (p.Selected? ==>
          && Distinct(Ids(p.picked))
          && forall i :: 0 <= i < |p.picked| ==> StillAsPicked(s, w, p.txNow, p.picked[i]))
    && (p.Publishing? ==> p.pos <= |p.batch|)
    && (p.Published? || p.Acking? ==> p.pos < |p.batch|)
    && (p.Busy() ==>
          && Distinct(BatchIds(p.batch))
          && forall i :: 0 <= i < |p.batch| ==>
               p.batch[i].id in s.rows && s.rows[p.batch[i].id].message == p.batch[i].message)
  }

  ghost predicate PhasesSound(s: State) {
    forall w :: w in s.workers ==> Usable(s.workers[w].cfg) && PhaseSound(s, w, s.workers[w].phase)
  }

  /** Only an open claim transaction holds locks, and only on the rows it picked. */
  ghost predicate LockHeld(s: State, id: OutboxId) {
    && id in s.locks && s.locks[id] in s.workers
    && s.workers[s.locks[id]].phase.Selected?
    && id in Ids(s.workers[s.locks[id]].phase.picked)
  }

  ghost predicate LocksSound(s: State) {
    forall id :: id in s.locks ==> LockHeld(s, id)
  }

  /** The lease names the worker of the newest claim, and a batch entry of that worker its attempt count. */
  ghost predicate RowTraced(s: State, h: History, id: OutboxId) {
    id in s.rows && s.rows[id].claimedBy.Some? ==>
      var w := s.rows[id].claimedBy.value;
      && w in s.workers
      && NewestClaim(h, id).Some? && NewestClaim(h, id).value.worker == w
  }

  ghost predicate EntryTraced(s: State, w: WorkerId, e: ClaimedMessage) {
    e.id in s.rows && s.rows[e.id].claimedBy == Some(w) ==> s.rows[e.id].attempts == e.attempt
  }

  ghost predicate BatchTraced(s: State, h: History, w: WorkerId) {
    w in s.workers && s.workers[w].phase.Busy() ==>
      var batch := s.workers[w].phase.batch;
      && NewestBatch(h, w).Some? && NewestBatch(h, w).value.ids == BatchIds(batch)
      && forall i :: 0 <= i < |batch| ==> EntryTraced(s, w, batch[i])
  }

  ghost predicate Traced(s: State, h: History) {
    && (forall id :: id in s.rows ==> RowTraced(s, h, id))
    && (forall w :: w in s.workers ==> BatchTraced(s, h, w))
  }

  ghost predicate Structure(s: State) {
    RowsCoherent(s) && PhasesSound(s) && LocksSound(s)
  }

  // ------------------------------------------------------------- preservation

  lemma StepKeepsCoherence(s: State, a: Action)
    requires Structure(s) && Enabled(s, a)
    ensures RowsCoherent(Apply(s, a))
  {
    forall id | id in Apply(s, a).rows ensures Coherent(Apply(s, a).rows[id]) {
      assert id in s.rows ==> Coherent(s.rows[id]);
    }
  }

  /** The worker whose call the action advances; Release runs beside that call. */
  predicate Advances(a: Action, w: WorkerId) {
    !a.Tick? && !a.Insert? && !a.Requeue? && !a.Release? && a.w == w
  }

  /** No step takes a row away or changes its message, and a locked row changes only by its holder's claim. */
  lemma StepOnRow(s: State, a: Action, id: OutboxId)
    requires Structure(s) && Enabled(s, a) && id in s.rows
    ensures id in Apply(s, a).rows && Apply(s, a).rows[id].message == s.rows[id].message
    ensures Apply(s, a).rows[id] != s.rows[id] && id in s.locks ==> a.Commit? && a.w == s.locks[id]
  {
    if id in s.locks {
      assert LockHeld(s, id);
    }
    if a.Commit? && id in a.ids {
      var p := s.workers[a.w].phase;
      assert PhaseSound(s, a.w, p);
      var i :| 0 <= i < |p.picked| && p.picked[i].id == id;
      assert StillAsPicked(s, a.w, p.txNow, p.picked[i]);
    }
  }

  lemma OthersLocksStay(s: State, a: Action, w: WorkerId, id: OutboxId)
    requires Enabled(s, a) && !Advances(a, w) && id in s.locks && s.locks[id] == w
    ensures id in Apply(s, a).locks && Apply(s, a).locks[id] == w
  {
  }

  lemma OthersPhaseStays(s: State, a: Action, w: WorkerId)
    requires Structure(s) && Enabled(s, a) && w in s.workers && !Advances(a, w)
    ensures w in Apply(s, a).workers && Apply(s, a).workers[w] == s.workers[w]
    ensures PhaseSound(Apply(s, a), w, s.workers[w].phase)
  {
    var s', p := Apply(s, a), s.workers[w].phase;
    assert PhaseSound(s, w, p);
    if p.Selected? {
      forall i | 0 <= i < |p.picked|
        ensures StillAsPicked(s', w, p.txNow, p.picked[i])
      {
        assert StillAsPicked(s, w, p.txNow, p.picked[i]);
        StepOnRow(s, a, p.picked[i].id);
        OthersLocksStay(s, a, w, p.picked[i].id);
      }
    }
    if p.Busy() {
      forall i | 0 <= i < |p.batch|
        ensures p.batch[i].id in s'.rows && s'.rows[p.batch[i].id].message == p.batch[i].message
      {
        StepOnRow(s, a, p.batch[i].id);
      }
    }
  }

  lemma OwnClaimPhase(s: State, a: Action, w: WorkerId)
    requires Structure(s) && Enabled(s, a) && Advances(a, w)
    requires a.Start? || a.Begin? || a.Select? || a.Commit? || a.Rollback? || a.Finish? || a.Crash?
    ensures w in Apply(s, a).workers && Usable(Apply(s, a).workers[w].cfg)
    ensures PhaseSound(Apply(s, a), w, Apply(s, a).workers[w].phase)
  {
    if a.Commit? {
      var p := s.workers[w].phase;
      assert PhaseSound(s, w, p);
      forall i | 0 <= i < |p.picked|
        ensures p.picked[i].id in s.rows && s.rows[p.picked[i].id].message == p.picked[i].message
      {
        assert StillAsPicked(s, w, p.txNow, p.picked[i]);
      }
      assert BatchIds(BatchOf(p.picked)) == Ids(p.picked);
    }
  }

  lemma OwnBatchPhase(s: State, a: Action, w: WorkerId)
    requires Structure(s) && Enabled(s, a) && Advances(a, w)
    requires a.Publish? || a.AckBegin? || a.AckApply? || a.AckError?
    ensures w in Apply(s, a).workers && Usable(Apply(s, a).workers[w].cfg)
    ensures PhaseSound(Apply(s, a), w, Apply(s, a).workers[w].phase)
  {
    var p := s.workers[w].phase;
    assert PhaseSound(s, w, p);
    forall i | 0 <= i < |p.batch|
      ensures p.batch[i].id in Apply(s, a).rows
      ensures Apply(s, a).rows[p.batch[i].id].message == p.batch[i].message
    {
      StepOnRow(s, a, p.batch[i].id);
    }
  }

  lemma StepKeepsPhases(s: State, a: Action)
    requires Structure(s) && Enabled(s, a)
    ensures PhasesSound(Apply(s, a))
  {
    var s' := Apply(s, a);
    forall w | w in s'.workers
      ensures Usable(s'.workers[w].cfg) && PhaseSound(s', w, s'.workers[w].phase)
    {
      if !Advances(a, w) {
        OthersPhaseStays(s, a, w);
      } else if a.Publish? || a.AckBegin? || a.AckApply? || a.AckError? {
        OwnBatchPhase(s, a, w);
      } else {
        OwnClaimPhase(s, a, w);
      }
    }
  }

  lemma SelectHoldsLock(s: State, a: Action, id: OutboxId)
    requires Enabled(s, a) && a.Select? && id in a.sel
    ensures LockHeld(Apply(s, a), id)
  {
    assert Apply(s, a).locks[id] == a.w && Ids(PickRows(s.rows, a.sel)) == a.sel;
  }

  lemma LockStaysHeld(s: State, a: Action, id: OutboxId)
    requires Enabled(s, a) && id in s.locks && LockHeld(s, id) && id in Apply(s, a).locks
    requires !(a.Select? && id in a.sel)
    ensures LockHeld(Apply(s, a), id)
  {
  }

  lemma StepKeepsLocks(s: State, a: Action)
    requires Structure(s) && Enabled(s, a)
    ensures LocksSound(Apply(s, a))
  {
    var s' := Apply(s, a);
    forall id | id in s'.locks
      ensures LockHeld(s', id)
    {
      if a.Select? && id in a.sel {
        SelectHoldsLock(s, a, id);
      } else {
        LockStaysHeld(s, a, id);
      }
    }
  }

  /** A leased row got its owner and attempt count from this claim, or had both before. */
  lemma StepOnOwner(s: State, a: Action, id: OutboxId)
    requires Enabled(s, a) && id in Apply(s, a).rows && Apply(s, a).rows[id].claimedBy.Some?
    ensures var r' := Apply(s, a).rows[id];
      if a.Commit? && id in a.ids then r'.claimedBy == Some(a.w)
      else id in s.rows && r'.claimedBy == s.rows[id].claimedBy && r'.attempts == s.rows[id].attempts
  {
  }

  lemma WorkersStay(s: State, a: Action)
    requires Enabled(s, a)
    ensures s.workers.Keys <= Apply(s, a).workers.Keys
    ensures a.Commit? || a.Publish? ==> a.w in s.workers
  {
  }

  lemma StepKeepsRowTrace(s: State, h: History, a: Action, id: OutboxId)
    requires Enabled(s, a) && Traced(s, h) && id in Apply(s, a).rows
    ensures RowTraced(Apply(s, a), Then(h, a), id)
  {
    if Apply(s, a).rows[id].claimedBy.Some? {
      StepOnOwner(s, a, id);
      WorkersStay(s, a);
      if !(a.Commit? && id in a.ids) {
        assert RowTraced(s, h, id);
      }
    }
  }

  /** A batch is the one of the worker's newest claim until the next. */
  lemma BatchStays(s: State, a: Action, w: WorkerId)
    requires Enabled(s, a) && w in Apply(s, a).workers && Apply(s, a).workers[w].phase.Busy()
    requires !(a.Commit? && a.w == w)
    ensures w in s.workers && s.workers[w].phase.Busy()
    ensures s.workers[w].phase.batch == Apply(s, a).workers[w].phase.batch
  {
  }

  lemma StepKeepsBatchTrace(s: State, h: History, a: Action, w: WorkerId)
    requires Structure(s) && Enabled(s, a) && Traced(s, h) && w in Apply(s, a).workers
    ensures BatchTraced(Apply(s, a), Then(h, a), w)
  {
    var s' := Apply(s, a);
    if s'.workers[w].phase.Busy() {
      var batch := s'.workers[w].phase.batch;
      if a.Commit? && a.w == w {
        FreshBatchTraced(s, a);
      } else {
        BatchStays(s, a, w);
        assert BatchTraced(s, h, w);
        assert PhaseSound(s, w, s.workers[w].phase);
        forall i | 0 <= i < |batch|
          ensures EntryTraced(s', w, batch[i])
        {
          assert EntryTraced(s, w, batch[i]);
          if batch[i].id in s'.rows && s'.rows[batch[i].id].claimedBy == Some(w) {
            StepOnOwner(s, a, batch[i].id);
          }
        }
      }
    }
  }

  /** Right after a claim commits, the attempts it reports are the stored ones. */
  lemma FreshBatchTraced(s: State, a: Action)
    requires Structure(s) && a.Commit? && Enabled(s, a)
    ensures var batch := Apply(s, a).workers[a.w].phase.batch;
      && BatchIds(batch) == a.ids
      && forall i :: 0 <= i < |batch| ==>
           && batch[i].id in s.rows
           && Apply(s, a).rows[batch[i].id].attempts == batch[i].attempt == s.rows[batch[i].id].attempts + 1
           && Apply(s, a).rows[batch[i].id].claimedBy == Some(a.w)
  {
    var p := s.workers[a.w].phase;
    assert PhaseSound(s, a.w, p);
    forall i | 0 <= i < |p.picked|
      ensures StillAsPicked(s, a.w, p.txNow, p.picked[i]) && p.picked[i].id in a.ids
    {
      assert a.ids[i] == p.picked[i].id;
    }
  }

  /** Every reachable state is structurally sound and agrees with its history. */
  lemma {:induction false} Reachable(h: History, s: State)
    requires After(h) == Some(s)
    ensures Structure(s) && Traced(s, h)
  {
    if h.Then? {
      var t := After(h.before).value;
      Reachable(h.before, t);
      StepKeepsCoherence(t, h.last);
      StepKeepsPhases(t, h.last);
      StepKeepsLocks(t, h.last);
      forall id | id in s.rows ensures RowTraced(s, h, id) {
        StepKeepsRowTrace(t, h.before, h.last, id);
      }
      forall w | w in s.workers ensures BatchTraced(s, h, w) {
        StepKeepsBatchTrace(t, h.before, h.last, w);
      }
    }
  }

  /** Only open rows are ever under a claim transaction. */
  lemma LockedRowIsOpen(s: State, id: OutboxId)
    requires Structure(s) && id in s.locks
    ensures id in s.rows && (s.rows[id].status == Pending || s.rows[id].status == Processing)
  {
    assert LockHeld(s, id);
    var p := s.workers[s.locks[id]].phase;
    assert PhaseSound(s, s.locks[id], p);
    var i :| 0 <= i < |p.picked| && p.picked[i].id == id;
    assert StillAsPicked(s, s.locks[id], p.txNow, p.picked[i]);
  }

  // ------------------------------------------------------------------ fencing

  /** The newest claim of a row, when made by w, cannot be older than the newest batch of w holding the row. */
  lemma {:induction false} NewestClaimIsNewestBatch(h: History, id: OutboxId, w: WorkerId)
    requires NewestClaim(h, id).Some? && NewestClaim(h, id).value.worker == w
    requires NewestBatch(h, w).Some? && id in NewestBatch(h, w).value.ids
    ensures NewestClaim(h, id) == NewestBatch(h, w)
  {
    if !h.last.Commit? || (id !in h.last.ids && h.last.w != w) {
      NewestClaimIsNewestBatch(h.before, id, w);
    }
  }

  /**
   * Fencing. Whenever an ack changes the table, it changes one processing row, the newest
   * claim of that row is the claim whose batch the acking worker is going through, and the
   * attempt count the worker carries is the stored one.
   */
  lemma AckIsFenced(h: History, s: State, a: Action)
    requires After(h) == Some(s) && a.AckApply? && Enabled(s, a)
    requires Apply(s, a).rows != s.rows
    ensures var e := s.workers[a.w].phase.batch[s.workers[a.w].phase.pos];
      && e.id in s.rows && s.rows[e.id].status == Processing && s.rows[e.id].claimedBy == Some(a.w)
      && NewestClaim(h, e.id).Some? && NewestClaim(h, e.id) == NewestBatch(h, a.w)
      && NewestBatch(h, a.w).value.ids == BatchIds(s.workers[a.w].phase.batch)
      && e.attempt == s.rows[e.id].attempts
      && forall id :: id in s.rows && id != e.id ==> Apply(s, a).rows[id] == s.rows[id]
  {
    Reachable(h, s);
    var p := s.workers[a.w].phase;
    var e := p.batch[p.pos];
    assert RowTraced(s, h, e.id);
    assert BatchTraced(s, h, a.w);
    assert EntryTraced(s, a.w, e);
    assert BatchIds(p.batch)[p.pos] == e.id;
    NewestClaimIsNewestBatch(h, e.id, a.w);
  }

  /**
   * An ack that changes the table records the outcome of the publish in its row: sent with
   * no error, or pending, or failed when the stored attempts have reached the limit, with the
   * error; the lease is gone, and message, creation time and attempts stay.
   */
  lemma AckEffect(h: History, s: State, a: Action)
    requires After(h) == Some(s) && a.AckApply? && Enabled(s, a)
    requires Apply(s, a).rows != s.rows
    ensures var p, cfg := s.workers[a.w].phase, s.workers[a.w].cfg; var id := p.batch[p.pos].id;
      && id in s.rows && Apply(s, a).rows.Keys == s.rows.Keys
      && SettledAs(s.rows[id], Apply(s, a).rows[id], if p.ok then None else Some(a.err), cfg.maxAttempts, a.sentAt)
  {
    AckIsFenced(h, s, a);
  }

  // ------------------------------------------------ coherence, permanence of sent

  /** A row is processing exactly when its three lease columns are set, and sent exactly when sent_at is. */
  lemma LeaseColumnsMatchStatus(h: History, s: State, id: OutboxId)
    requires After(h) == Some(s) && id in s.rows
    ensures Coherent(s.rows[id])
  {
    Reachable(h, s);
  }

  lemma SentRowStays(h: History, s: State, a: Action, id: OutboxId)
    requires After(h) == Some(s) && Enabled(s, a) && id in s.rows && s.rows[id].status == Sent
    ensures id in Apply(s, a).rows && Apply(s, a).rows[id] == s.rows[id]
  {
    Reachable(h, s);
    assert Coherent(s.rows[id]);
    StepOnRow(s, a, id);
  }

  /** Once sent, a row never changes again, whatever happens later. */
  lemma {:induction false} SentIsPermanent(earlier: History, later: History, id: OutboxId)
    requires Continues(later, earlier) && After(later).Some? && After(earlier).Some?
    requires id in After(earlier).value.rows && After(earlier).value.rows[id].status == Sent
    ensures id in After(later).value.rows
    ensures After(later).value.rows[id] == After(earlier).value.rows[id]
  {
    if later != earlier {
      SentIsPermanent(earlier, later.before, id);
      SentRowStays(later.before, After(later.before).value, later.last, id);
    }
  }

  // --------------------------------------------------------- claim exclusivity

  /** Overlapping claim transactions hold disjoint rows. */
  lemma OverlappingClaimsAreDisjoint(h: History, s: State, w1: WorkerId, w2: WorkerId, i: int, j: int)
    requires After(h) == Some(s) && w1 != w2 && w1 in s.workers && w2 in s.workers
    requires s.workers[w1].phase.Selected? && s.workers[w2].phase.Selected?
    requires 0 <= i < |s.workers[w1].phase.picked| && 0 <= j < |s.workers[w2].phase.picked|
    ensures s.workers[w1].phase.picked[i].id != s.workers[w2].phase.picked[j].id
  {
    Reachable(h, s);
    var p1, p2 := s.workers[w1].phase, s.workers[w2].phase;
    assert PhaseSound(s, w1, p1) && PhaseSound(s, w2, p2);
    assert StillAsPicked(s, w1, p1.txNow, p1.picked[i]);
    assert StillAsPicked(s, w2, p2.txNow, p2.picked[j]);
  }

  /**
   * A committed claim returns distinct claimable rows with the stored messages and attempt
   * counts, leaves each under a lease of the caller, and no other row is changed.
   */
  lemma ClaimReportsStoredAttempts(h: History, s: State, a: Action)
    requires After(h) == Some(s) && a.Commit? && Enabled(s, a)
    ensures Distinct(a.ids)
    ensures var s' := Apply(s, a); var batch := s'.workers[a.w].phase.batch;
      && |batch| == |a.ids|
      && forall i :: 0 <= i < |batch| ==>
           && batch[i].id == a.ids[i] && batch[i].id in s.rows
           && Claimable(s.rows[batch[i].id], s.workers[a.w].phase.txNow)
           && LeasedTo(s.rows[batch[i].id], s'.rows[batch[i].id], a.w, s.workers[a.w].phase.txNow, s.workers[a.w].cfg.leaseTtl)
           && s'.rows[batch[i].id].message == batch[i].message
           && s'.rows[batch[i].id].attempts == batch[i].attempt
    ensures forall id :: id in s.rows && id !in a.ids ==> id in Apply(s, a).rows && Apply(s, a).rows[id] == s.rows[id]
  {
    Reachable(h, s);
    FreshBatchTraced(s, a);
    LeaseIsWholeMillis(s.workers[a.w].cfg);
    var p := s.workers[a.w].phase;
    assert PhaseSound(s, a.w, p);
    forall i | 0 <= i < |p.picked| ensures StillAsPicked(s, a.w, p.txNow, p.picked[i]) {}
  }

  /** At no instant can the owner ack a row and a claim take it. */
  lemma NeverAckableAndClaimable(h: History, s: State, id: OutboxId, w: WorkerId, t: Time)
    requires After(h) == Some(s) && id in s.rows
    ensures !(Owns(s.rows[id], w, t) && Claimable(s.rows[id], t))
  {
    Reachable(h, s);
    assert Coherent(s.rows[id]);
  }

  /** Until its lease has run out, only the owner's own Ack or Release changes a processing row. */
  lemma LeaseProtectsRow(h: History, s: State, a: Action, id: OutboxId, until: Time)
    requires After(h) == Some(s) && Enabled(s, a)
    requires id in s.rows && s.rows[id].status == Processing
    requires s.rows[id].leaseExpiresAt == Some(until) && s.now <= until
    requires Apply(s, a).rows[id] != s.rows[id]
    ensures (a.AckApply? || a.Release?) && s.rows[id].claimedBy == Some(a.w)
  {
    Reachable(h, s);
  }
}
