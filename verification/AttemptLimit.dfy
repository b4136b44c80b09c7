/**
 * The attempt limit. Nothing in the claim query looks at the attempt count, so the limit can
 * be overrun; but only by claims that were wasted, on a lease that ran out or was given back.
 */
module AttemptLimit {
  import opened Common
  import opened Entities
  import opened Outbox
  import opened RelayProtocol
  import opened RelaySafety
  import opened RelayCounting

  /** The action ends a claim of the row without an ack: a Release of it, or a claim over its expired lease. */
  ghost predicate WastesClaim(s: Option<State>, a: Action, id: OutboxId) {
    || (a.Release? && id in a.freed)
    || (a.Commit? && id in a.ids && s.Some? && id in s.value.rows && s.value.rows[id].status == Processing)
  }

  /** Claims of the row wasted since it was inserted or last requeued. */
  ghost function Wasted(h: History, id: OutboxId): nat {
    match h
    case Empty => 0
    case Then(before, a) =>
      if (a.Insert? || a.Requeue?) && a.id == id then 0
      else Wasted(before, id) + if WastesClaim(After(before), a, id) then 1 else 0
  }

  /** A pending row has an attempt to spare, any other row is within the limit, wasted claims aside. */
  ghost predicate WithinLimit(h: History, s: State, id: OutboxId, maxAttempts: int) {
    id in s.rows ==>
      s.rows[id].attempts + (if s.rows[id].status == Pending then 1 else 0) <= maxAttempts + Wasted(h, id)
  }

  lemma AckKeepsLimit(h: History, s: State, a: Action, id: OutboxId, maxAttempts: int)
    requires After(h) == Some(s) && Enabled(s, a) && a.AckApply? && WithinLimit(h, s, id, maxAttempts)
    requires s.workers[a.w].cfg.maxAttempts == maxAttempts
    ensures WithinLimit(Then(h, a), Apply(s, a), id, maxAttempts)
  {
    if Apply(s, a).rows != s.rows {
      AckIsFenced(h, s, a);
    }
  }

  lemma OtherStepsKeepLimit(h: History, s: State, a: Action, id: OutboxId, maxAttempts: int)
    requires After(h) == Some(s) && Enabled(s, a) && !a.AckApply? && WithinLimit(h, s, id, maxAttempts)
    requires maxAttempts >= 1
    ensures WithinLimit(Then(h, a), Apply(s, a), id, maxAttempts)
  {
    Reachable(h, s);
    if a.Commit? && id in a.ids {
      var p := s.workers[a.w].phase;
      assert PhaseSound(s, a.w, p);
      var i :| 0 <= i < |p.picked| && p.picked[i].id == id;
      assert StillAsPicked(s, a.w, p.txNow, p.picked[i]);
    }
  }

  /**
   * A row's attempt count exceeds the limit all workers share by no more than the claims of
   * it that were wasted since its insertion or last requeue; with none wasted, the limit holds.
   */
  lemma {:induction false} OverrunsAreWastedClaims(h: History, s: State, id: OutboxId, maxAttempts: int)
    requires After(h) == Some(s) && SharedLimit(h, maxAttempts) && maxAttempts >= 1
    ensures WithinLimit(h, s, id, maxAttempts)
  {
    if h.Then? {
      var t := After(h.before).value;
      OverrunsAreWastedClaims(h.before, t, id, maxAttempts);
      if h.last.AckApply? {
        SettledRowsAreExplained(h.before, t, maxAttempts);
        AckKeepsLimit(h.before, t, h.last, id, maxAttempts);
      } else {
        OtherStepsKeepLimit(h.before, t, h.last, id, maxAttempts);
      }
    }
  }

  /**
   * The row's claim was wasted when its attempts were already used up: a Release freed it, or
   * a claim took it over, with the stored count at the limit or beyond, since its insertion or
   * last requeue.
   */
  ghost predicate LastWasted(h: History, id: OutboxId, maxAttempts: int) {
    match h
    case Empty => false
    case Then(before, a) =>
      !((a.Insert? || a.Requeue?) && a.id == id)
      && (LastWasted(before, id, maxAttempts) || WastesLast(After(before), a, id, maxAttempts))
  }

  ghost predicate WastesLast(s: Option<State>, a: Action, id: OutboxId, maxAttempts: int) {
    WastesClaim(s, a, id) && s.Some? && id in s.value.rows && s.value.rows[id].attempts >= maxAttempts
  }

  /** The row has had more attempts than the limit, or is due for one more. */
  predicate Overrunning(s: State, id: OutboxId, maxAttempts: int) {
    id in s.rows && s.rows[id].attempts + (if s.rows[id].status == Pending then 1 else 0) > maxAttempts
  }

  lemma AckKeepsOverrun(h: History, s: State, a: Action, id: OutboxId, maxAttempts: int)
    requires After(h) == Some(s) && Enabled(s, a) && a.AckApply? && id in s.rows
    requires s.workers[a.w].cfg.maxAttempts == maxAttempts
    ensures Overrunning(Apply(s, a), id, maxAttempts) <==> Overrunning(s, id, maxAttempts)
  {
    if Apply(s, a).rows != s.rows {
      AckIsFenced(h, s, a);
    }
  }

  lemma OtherStepsOnOverrun(h: History, s: State, a: Action, id: OutboxId, maxAttempts: int)
    requires After(h) == Some(s) && Enabled(s, a) && !a.AckApply? && id in Apply(s, a).rows && maxAttempts >= 1
    ensures (a.Insert? || a.Requeue?) && a.id == id ==> !Overrunning(Apply(s, a), id, maxAttempts)
    ensures !((a.Insert? || a.Requeue?) && a.id == id) ==>
      (Overrunning(Apply(s, a), id, maxAttempts)
       <==> Overrunning(s, id, maxAttempts) || WastesLast(Some(s), a, id, maxAttempts))
  {
    Reachable(h, s);
    if a.Commit? && id in a.ids {
      var p := s.workers[a.w].phase;
      assert PhaseSound(s, a.w, p);
      var i :| 0 <= i < |p.picked| && p.picked[i].id == id;
      assert StillAsPicked(s, a.w, p.txNow, p.picked[i]);
    }
  }

  /**
   * The exact condition: a row overruns the limit all workers share if and only if, since its
   * insertion or last requeue, a claim was wasted on it when its attempts were used up.
   */
  lemma {:induction false} OverrunExactlyWhenLastIsWasted(h: History, s: State, id: OutboxId, maxAttempts: int)
    requires After(h) == Some(s) && SharedLimit(h, maxAttempts) && maxAttempts >= 1 && id in s.rows
    ensures Overrunning(s, id, maxAttempts) <==> LastWasted(h, id, maxAttempts)
  {
    var t, a := After(h.before).value, h.last;
    if a.AckApply? {
      OverrunExactlyWhenLastIsWasted(h.before, t, id, maxAttempts);
      SettledRowsAreExplained(h.before, t, maxAttempts);
      AckKeepsOverrun(h.before, t, a, id, maxAttempts);
    } else {
      OtherStepsOnOverrun(h.before, t, a, id, maxAttempts);
      if !(a.Insert? && a.id == id) {
        OverrunExactlyWhenLastIsWasted(h.before, t, id, maxAttempts);
      }
    }
  }

  const TIGHT := Config(1, NANOS_PER_MILLI, 1)

  /** Two workers with a limit of one attempt, and one row. */
  function Opening(m: OutboxMessage): History {
    Then(Then(Then(Empty, Start(1, TIGHT)), Start(2, TIGHT)), Insert(0, m, 0))
  }

  /** One claim of one row. */
  function ClaimBy(h: History, w: WorkerId, id: OutboxId): History {
    Then(Then(Then(h, Begin(w)), Select(w, [id])), Commit(w, [id]))
  }

  /** The second worker claims after the first one's lease has run out. */
  function Overrun(m: OutboxMessage): History {
    ClaimBy(Then(ClaimBy(Opening(m), 1, 0), Tick(NANOS_PER_MILLI + 1)), 2, 0)
  }

  lemma OpeningState(m: OutboxMessage)
    ensures After(Opening(m))
         == Some(State(0, map[0 := FreshRow(m, 0)], map[], map[1 := Worker(TIGHT, Idle), 2 := Worker(TIGHT, Idle)]))
  {
  }

  /** The claim transaction of w has picked the row. */
  ghost predicate HasPicked(s: State, s0: State, w: WorkerId, id: OutboxId)
    requires w in s0.workers && id in s0.rows
  {
    && s.now == s0.now && s.rows == s0.rows && s.locks == map[id := w]
    && s.workers == s0.workers[w := Worker(s0.workers[w].cfg,
         Selected(s0.now, [Picked(id, s0.rows[id].message, s0.rows[id].attempts)]))]
  }

  lemma SelectRuns(h: History, s: State, w: WorkerId, id: OutboxId) returns (s': State)
    requires After(h) == Some(s) && w in s.workers && s.workers[w].phase.Idle? && s.workers[w].cfg.batchSize >= 1
    requires id in s.rows && Claimable(s.rows[id], s.now) && s.locks == map[]
    ensures After(Then(Then(h, Begin(w)), Select(w, [id]))) == Some(s') && HasPicked(s', s, w, id)
  {
    var h1, s1 := Then(h, Begin(w)), SetPhase(s, w, ClaimOpen(s.now));
    assert After(h1) == Some(s1);
    assert MayLock(s1, s.now, [id]);
    s' := After(Then(h1, Select(w, [id]))).value;
    assert PickRows(s1.rows, [id]) == [Picked(id, s.rows[id].message, s.rows[id].attempts)];
    assert s'.locks == map[id := w];
  }

  lemma CommitRuns(h: History, s: State, s0: State, w: WorkerId, id: OutboxId)
    requires w in s0.workers && id in s0.rows && After(h) == Some(s) && HasPicked(s, s0, w, id)
    ensures var s' := After(Then(h, Commit(w, [id])));
      && s'.Some? && s'.value.now == s0.now && s'.value.locks == map[]
      && s'.value.rows == s0.rows[id := ClaimedRow(s0.rows[id], w, s0.now, LeaseLength(s0.workers[w].cfg))]
      && s'.value.workers == s0.workers[w := Worker(s0.workers[w].cfg,
           Publishing([ClaimedMessage(id, s0.rows[id].message, s0.rows[id].attempts + 1)], 0))]
  {
    var picked := [Picked(id, s0.rows[id].message, s0.rows[id].attempts)];
    assert [id] == Ids(picked);
    assert BatchOf(picked) == [ClaimedMessage(id, s0.rows[id].message, s0.rows[id].attempts + 1)];
    assert Unlock(s.locks, w) == map[];
  }

  lemma ClaimRuns(h: History, s: State, w: WorkerId, id: OutboxId)
    requires After(h) == Some(s) && w in s.workers && s.workers[w].phase.Idle? && s.workers[w].cfg.batchSize >= 1
    requires id in s.rows && Claimable(s.rows[id], s.now) && s.locks == map[]
    ensures var s' := After(ClaimBy(h, w, id));
      && s'.Some? && s'.value.now == s.now && s'.value.locks == map[]
      && s'.value.rows == s.rows[id := ClaimedRow(s.rows[id], w, s.now, LeaseLength(s.workers[w].cfg))]
      && s'.value.workers == s.workers[w := Worker(s.workers[w].cfg,
           Publishing([ClaimedMessage(id, s.rows[id].message, s.rows[id].attempts + 1)], 0))]
  {
    var s1 := SelectRuns(h, s, w, id);
    CommitRuns(Then(Then(h, Begin(w)), Select(w, [id])), s1, s, w, id);
  }

  lemma ClaimSharesLimit(h: History, w: WorkerId, id: OutboxId, maxAttempts: int)
    requires SharedLimit(h, maxAttempts)
    ensures SharedLimit(ClaimBy(h, w, id), maxAttempts)
  {
    assert SharedLimit(Then(Then(h, Begin(w)), Select(w, [id])), maxAttempts);
  }

  lemma OverrunSharesLimit(m: OutboxMessage)
    ensures SharedLimit(Overrun(m), 1)
  {
    assert SharedLimit(Then(Then(Empty, Start(1, TIGHT)), Start(2, TIGHT)), 1);
    ClaimSharesLimit(Opening(m), 1, 0, 1);
    ClaimSharesLimit(Then(ClaimBy(Opening(m), 1, 0), Tick(NANOS_PER_MILLI + 1)), 2, 0, 1);
  }

  /** The limit can be overrun: with one attempt allowed, a row is claimed twice. */
  lemma LimitCanBeOverrun(m: OutboxMessage)
    ensures SharedLimit(Overrun(m), 1)
    ensures var s := After(Overrun(m)); s.Some? && 0 in s.value.rows && s.value.rows[0].attempts == 2
  {
    OverrunSharesLimit(m);
    OpeningState(m);
    var s0 := After(Opening(m)).value;
    ClaimRuns(Opening(m), s0, 1, 0);
    var claimed := ClaimBy(Opening(m), 1, 0);
    var expired := Then(claimed, Tick(NANOS_PER_MILLI + 1));
    var s1 := After(claimed).value.(now := NANOS_PER_MILLI + 1);
    assert After(expired) == Some(s1);
    assert LeaseLength(TIGHT) == NANOS_PER_MILLI;
    ClaimRuns(expired, s1, 2, 0);
  }

  // ------------------------------------------------------------- claimed forever

  /** One worker between its calls, one row it may claim. */
  ghost predicate BetweenCalls(s: State) {
    && s.workers == map[1 := Worker(TIGHT, Idle)] && s.locks == map[]
    && s.rows.Keys == {0} && Claimable(s.rows[0], s.now)
  }

  /** From its claim on, a call whose publish takes longer than the lease. */
  function SlowPublish(h: History, now: Time): History {
    Then(Then(h, Tick(now + NANOS_PER_MILLI + 1)), Publish(1, 0, true))
  }

  function SlowDelivery(h: History, now: Time): History {
    Then(Then(Then(SlowPublish(h, now), AckBegin(1)), AckApply(1, 0, "")), Finish(1))
  }

  /** Just after the claim. */
  ghost predicate JustClaimed(s: State) {
    && s.locks == map[] && s.rows.Keys == {0} && s.rows[0].status == Processing
    && s.rows[0].claimedBy == Some(1) && s.rows[0].leaseExpiresAt == Some(s.now + NANOS_PER_MILLI)
    && s.workers == map[1 := Worker(TIGHT, Publishing([ClaimedMessage(0, s.rows[0].message, s.rows[0].attempts)], 0))]
  }

  lemma SlowPublishRuns(h: History, s: State)
    requires After(h) == Some(s) && JustClaimed(s)
    ensures var batch, now := s.workers[1].phase.batch, s.now + NANOS_PER_MILLI + 1;
      After(SlowPublish(h, s.now)) == Some(s.(now := now, workers := map[1 := Worker(TIGHT, Published(batch, 0, true))]))
  {
    var batch, now := s.workers[1].phase.batch, s.now + NANOS_PER_MILLI + 1;
    var h1, s1 := Then(h, Tick(now)), s.(now := now);
    assert After(h1) == Some(s1);
    assert SetPhase(s1, 1, Published(batch, 0, true)).workers == map[1 := Worker(TIGHT, Published(batch, 0, true))];
  }

  lemma LateAckRuns(h: History, s: State, e: ClaimedMessage)
    requires After(h) == Some(s) && s.workers == map[1 := Worker(TIGHT, Published([e], 0, true))]
    requires e.id in s.rows && e.id !in s.locks && s.rows[e.id].leaseExpiresAt.Some? && s.rows[e.id].leaseExpiresAt.value < s.now
    ensures After(Then(Then(Then(h, AckBegin(1)), AckApply(1, 0, "")), Finish(1)))
         == Some(s.(workers := map[1 := Worker(TIGHT, Idle)]))
  {
    var h1, s1 := Then(h, AckBegin(1)), s.(workers := map[1 := Worker(TIGHT, Acking([e], 0, true, s.now))]);
    assert SetPhase(s, 1, Acking([e], 0, true, s.now)).workers == s1.workers;
    assert After(h1) == Some(s1);
    var h2, s2 := Then(h1, AckApply(1, 0, "")), s.(workers := map[1 := Worker(TIGHT, Publishing([e], 1))]);
    assert SetPhase(s1, 1, Publishing([e], 1)).workers == s2.workers;
    assert After(h2) == Some(s2);
    assert SetPhase(s2, 1, Idle).workers == map[1 := Worker(TIGHT, Idle)];
  }

  lemma SlowDeliveryRuns(h: History, s: State)
    requires After(h) == Some(s) && JustClaimed(s)
    ensures var s' := After(SlowDelivery(h, s.now)); s'.Some? && BetweenCalls(s'.value) && s'.value.rows == s.rows
  {
    SlowPublishRuns(h, s);
    LateAckRuns(SlowPublish(h, s.now), After(SlowPublish(h, s.now)).value,
                ClaimedMessage(0, s.rows[0].message, s.rows[0].attempts));
  }

  lemma SlowDeliveryPublishes(h: History, now: Time)
    ensures Publishes(SlowDelivery(h, now), 0, {1}) == Publishes(h, 0, {1}) + 1
  {
    var h2 := SlowPublish(h, now);
    assert Publishes(h2, 0, {1}) == Publishes(h, 0, {1}) + 1;
    assert Publishes(Then(Then(h2, AckBegin(1)), AckApply(1, 0, "")), 0, {1}) == Publishes(h2, 0, {1});
  }

  lemma ClaimPublishesNothing(h: History)
    ensures Publishes(ClaimBy(h, 1, 0), 0, {1}) == Publishes(h, 0, {1})
  {
    assert Publishes(Then(Then(h, Begin(1)), Select(1, [0])), 0, {1}) == Publishes(h, 0, {1});
  }

  lemma OneClaims(h: History, s: State) returns (s': State)
    requires After(h) == Some(s) && BetweenCalls(s)
    ensures After(ClaimBy(h, 1, 0)) == Some(s') && JustClaimed(s') && s'.rows[0].attempts == s.rows[0].attempts + 1
  {
    ClaimRuns(h, s, 1, 0);
    s' := After(ClaimBy(h, 1, 0)).value;
    assert LeaseLength(TIGHT) == NANOS_PER_MILLI;
    assert s'.workers == map[1 := s'.workers[1]];
  }

  lemma SlowCall(h: History, s: State) returns (h': History, s': State)
    requires After(h) == Some(s) && BetweenCalls(s)
    ensures After(h') == Some(s') && BetweenCalls(s')
    ensures s'.rows[0].status == Processing && s'.rows[0].attempts == s.rows[0].attempts + 1
    ensures Publishes(h', 0, {1}) == Publishes(h, 0, {1}) + 1
  {
    var h1 := ClaimBy(h, 1, 0);
    var s1 := OneClaims(h, s);
    SlowDeliveryRuns(h1, s1);
    ClaimPublishesNothing(h);
    SlowDeliveryPublishes(h1, s1.now);
    h' := SlowDelivery(h1, s1.now);
    s' := After(h').value;
  }

  /**
   * With leases that run out nothing bounds the wait: for every n there is a run of one
   * worker in which a row with a limit of one attempt is claimed and published n times, each
   * time with success, and is still not sent.
   */
  lemma {:induction false} SlowPublisherNeverSettles(m: OutboxMessage, n: nat) returns (h: History, s: State)
    ensures After(h) == Some(s) && BetweenCalls(s)
    ensures s.rows[0].attempts == n && Publishes(h, 0, {1}) == n && (n > 0 ==> s.rows[0].status == Processing)
  {
    if n == 0 {
      h := Then(Then(Empty, Start(1, TIGHT)), Insert(0, m, 0));
      s := State(0, map[0 := FreshRow(m, 0)], map[], map[1 := Worker(TIGHT, Idle)]);
      assert After(Then(Empty, Start(1, TIGHT))) == Some(State(0, map[], map[], map[1 := Worker(TIGHT, Idle)]));
      assert After(h) == Some(s);
    } else {
      var h0, s0 := SlowPublisherNeverSettles(m, n - 1);
      h, s := SlowCall(h0, s0);
    }
  }
}
