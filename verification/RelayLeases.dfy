/** The terms of a lease, and the TTLs with which a lease can be acked at all. */
module RelayLeases {
  import opened Common
  import opened Entities
  import opened Outbox
  import opened RelayProtocol
  import opened RelaySafety

  /** A leased row's deadline is its claim time plus its owner's lease, and no ack of the owner looks back past it. */
  ghost predicate LeaseTerms(s: State, id: OutboxId) {
    id in s.rows && s.rows[id].claimedBy.Some? ==>
      var r, w := s.rows[id], s.rows[id].claimedBy.value;
      && w in s.workers && r.claimedAt.Some?
      && r.leaseExpiresAt == Some(r.claimedAt.value + LeaseLength(s.workers[w].cfg))
      && r.claimedAt.value <= s.now
      && (s.workers[w].phase.Acking? ==> r.claimedAt.value <= s.workers[w].phase.txNow)
  }

  /** A worker keeps its configuration, the clock only advances, and an ack starts at the current time. */
  lemma StepOnWorker(s: State, a: Action, w: WorkerId)
    requires Enabled(s, a) && w in s.workers
    ensures s.now <= Apply(s, a).now
    ensures w in Apply(s, a).workers && Apply(s, a).workers[w].cfg == s.workers[w].cfg
    ensures Apply(s, a).workers[w].phase.Acking? ==>
      Apply(s, a).workers[w].phase == s.workers[w].phase || Apply(s, a).workers[w].phase.txNow == s.now
    ensures a.Commit? && a.w == w ==> !Apply(s, a).workers[w].phase.Acking?
  {
  }

  /** A lease is written by a claim and otherwise left alone or cleared. */
  lemma StepOnLease(s: State, a: Action, id: OutboxId)
    requires Enabled(s, a) && id in Apply(s, a).rows && Apply(s, a).rows[id].claimedBy.Some?
    ensures var r' := Apply(s, a).rows[id];
      if a.Commit? && id in a.ids then
        var txNow := s.workers[a.w].phase.txNow;
        && r'.claimedBy == Some(a.w) && r'.claimedAt == Some(txNow)
        && r'.leaseExpiresAt == Some(txNow + LeaseLength(s.workers[a.w].cfg))
      else
        id in s.rows && r'.claimedBy == s.rows[id].claimedBy && r'.claimedAt == s.rows[id].claimedAt
        && r'.leaseExpiresAt == s.rows[id].leaseExpiresAt
  {
  }

  lemma StepKeepsLeaseTerms(s: State, a: Action, id: OutboxId)
    requires Structure(s) && Enabled(s, a) && id in Apply(s, a).rows && LeaseTerms(s, id)
    ensures LeaseTerms(Apply(s, a), id)
  {
    if Apply(s, a).rows[id].claimedBy.Some? {
      StepOnLease(s, a, id);
      StepOnWorker(s, a, Apply(s, a).rows[id].claimedBy.value);
      if a.Commit? {
        assert PhaseSound(s, a.w, s.workers[a.w].phase);
      }
    }
  }

  lemma {:induction false} LeasesOnTerms(h: History, s: State, id: OutboxId)
    requires After(h) == Some(s)
    ensures LeaseTerms(s, id)
  {
    if h.Then? {
      var t := After(h.before).value;
      Reachable(h.before, t);
      if id in s.rows {
        LeasesOnTerms(h.before, t, id);
        StepKeepsLeaseTerms(t, h.last, id);
      }
    }
  }

  /** Every lease runs from its claim for its owner's TTL, cut down to whole milliseconds. */
  lemma LeaseRunsForTtl(h: History, s: State, id: OutboxId)
    requires After(h) == Some(s) && id in s.rows && s.rows[id].status == Processing
    ensures var r := s.rows[id];
      && r.claimedBy.Some? && r.claimedBy.value in s.workers && r.claimedAt.Some? && r.leaseExpiresAt.Some?
      && var d, ttl := r.leaseExpiresAt.value - r.claimedAt.value, s.workers[r.claimedBy.value].cfg.leaseTtl;
         d % 1_000_000 == 0 && d <= ttl < d + 1_000_000
  {
    Reachable(h, s);
    assert Coherent(s.rows[id]);
    LeasesOnTerms(h, s, id);
    LeaseIsWholeMillis(s.workers[s.rows[id].claimedBy.value].cfg);
  }

  /** The claim that leased a row is the newest one, and it dates the lease. */
  ghost predicate LeaseDated(s: State, h: History, id: OutboxId) {
    id in s.rows && s.rows[id].claimedBy.Some? ==>
      var claim := NewestClaim(h, id);
      && claim.Some? && s.rows[id].claimedBy == Some(claim.value.worker)
      && s.rows[id].claimedAt == ClaimTime(h, id)
  }

  /** NOW() of the newest claim transaction of a row. */
  function ClaimTime(h: History, id: OutboxId): Option<Time> {
    match h
    case Empty => None
    case Then(before, a) =>
      if a.Commit? && id in a.ids then
        var s := After(before);
        if s.Some? && a.w in s.value.workers && s.value.workers[a.w].phase.Selected?
        then Some(s.value.workers[a.w].phase.txNow) else None
      else ClaimTime(before, id)
  }

  lemma {:induction false} LeasesAreDated(h: History, s: State, id: OutboxId)
    requires After(h) == Some(s)
    ensures LeaseDated(s, h, id)
  {
    if h.Then? {
      var t := After(h.before).value;
      LeasesAreDated(h.before, t, id);
      if id in s.rows && s.rows[id].claimedBy.Some? {
        StepOnLease(t, h.last, id);
      }
    }
  }

  /**
   * When an ack gets through: exactly when its row is still leased to the worker and the
   * statement started within the TTL, in whole milliseconds, of the claim.
   */
  lemma AckSucceedsWithinTtl(h: History, s: State, a: Action)
    requires After(h) == Some(s) && a.AckApply? && Enabled(s, a)
    ensures var p, ttl := s.workers[a.w].phase, s.workers[a.w].cfg.leaseTtl; var id := p.batch[p.pos].id;
      && id in s.rows && (s.rows[id].claimedBy == Some(a.w) ==> s.rows[id].claimedAt.Some?)
      && (Apply(s, a).rows != s.rows <==>
            s.rows[id].claimedBy == Some(a.w) && p.txNow < s.rows[id].claimedAt.value + (ttl - ttl % 1_000_000))
  {
    Reachable(h, s);
    var p, cfg := s.workers[a.w].phase, s.workers[a.w].cfg;
    var id := p.batch[p.pos].id;
    assert PhaseSound(s, a.w, p);
    if s.rows[id].claimedBy == Some(a.w) {
      assert Coherent(s.rows[id]);
      LeaseRunsForTtl(h, s, id);
      CutIsUnique(s.rows[id].leaseExpiresAt.value - s.rows[id].claimedAt.value, cfg.leaseTtl);
      assert Owns(s.rows[id], a.w, p.txNow) ==> Apply(s, a).rows[id].claimedBy == None;
    }
  }

  lemma CutIsUnique(d: int, ttl: int)
    requires d % 1_000_000 == 0 && d <= ttl < d + 1_000_000
    ensures d == ttl - ttl % 1_000_000
  {
  }

  /** In particular none is lost that starts a millisecond before the TTL is over, while the row is not given away. */
  lemma AckInTimeIsNotLost(h: History, s: State, a: Action)
    requires After(h) == Some(s) && a.AckApply? && Enabled(s, a)
    requires var p := s.workers[a.w].phase; var id := p.batch[p.pos].id;
      && id in s.rows && s.rows[id].claimedBy == Some(a.w) && ClaimTime(h, id).Some?
      && p.txNow < ClaimTime(h, id).value + s.workers[a.w].cfg.leaseTtl - 1_000_000
    ensures var p := s.workers[a.w].phase; var id := p.batch[p.pos].id;
      Apply(s, a).rows[id].status != Processing && Apply(s, a).rows[id].claimedBy == None
  {
    var p := s.workers[a.w].phase;
    LeasesAreDated(h, s, p.batch[p.pos].id);
    AckSucceedsWithinTtl(h, s, a);
    AckEffect(h, s, a);
  }

  /** A claim may take a row exactly when it is pending, or processing and past its owner's TTL, in whole milliseconds. */
  lemma ClaimableExactlyAfterTtl(h: History, s: State, id: OutboxId, txNow: Time)
    requires After(h) == Some(s) && id in s.rows
    ensures s.rows[id].status == Processing ==>
      s.rows[id].claimedBy.Some? && s.rows[id].claimedBy.value in s.workers && s.rows[id].claimedAt.Some?
    ensures Claimable(s.rows[id], txNow) <==>
      || s.rows[id].status == Pending
      || (&& s.rows[id].status == Processing
          && var ttl := s.workers[s.rows[id].claimedBy.value].cfg.leaseTtl;
             txNow > s.rows[id].claimedAt.value + (ttl - ttl % 1_000_000))
  {
    if s.rows[id].status == Processing {
      LeaseRunsForTtl(h, s, id);
      CutIsUnique(s.rows[id].leaseExpiresAt.value - s.rows[id].claimedAt.value,
                  s.workers[s.rows[id].claimedBy.value].cfg.leaseTtl);
    }
  }

  /** In some run a worker with this configuration gets an ack through. */
  ghost predicate AckCanSucceed(cfg: Config) {
    exists h: History, a: Action :: AckSucceeds(h, a, cfg)
  }

  ghost predicate AckSucceeds(h: History, a: Action, cfg: Config) {
    && After(h).Some? && a.AckApply? && Enabled(After(h).value, a)
    && After(h).value.workers[a.w].cfg == cfg
    && Apply(After(h).value, a).rows != After(h).value.rows
  }

  /** One worker, one row, no delay: the history up to the claim, and the state it leads to. */
  function ClaimHistory(cfg: Config, m: OutboxMessage): History {
    Then(Then(Then(Then(Then(Empty,
      Start(0, cfg)), Insert(0, m, 0)), Begin(0)), Select(0, [0])), Commit(0, [0]))
  }

  function SelectedState(cfg: Config, m: OutboxMessage): State {
    State(0, map[0 := FreshRow(m, 0)], map[0 := 0], map[0 := Worker(cfg, Selected(0, [Picked(0, m, 0)]))])
  }

  function ClaimedState(cfg: Config, m: OutboxMessage): State {
    State(0, map[0 := ClaimedRow(FreshRow(m, 0), 0, 0, LeaseLength(cfg))], map[],
          map[0 := Worker(cfg, Publishing([ClaimedMessage(0, m, 1)], 0))])
  }

  lemma PromptSelection(cfg: Config, m: OutboxMessage)
    requires Usable(cfg)
    ensures After(ClaimHistory(cfg, m).before) == Some(SelectedState(cfg, m))
  {
    var h := ClaimHistory(cfg, m);
    var started := Apply(INITIAL, Start(0, cfg));
    assert After(Then(Empty, Start(0, cfg))) == Some(started);
    var inserted := Apply(started, Insert(0, m, 0));
    assert After(h.before.before.before) == Some(inserted);
    var begun := Apply(inserted, Begin(0));
    assert After(h.before.before) == Some(begun);
    assert PickRows(begun.rows, [0]) == [Picked(0, m, 0)];
    assert Lock(map[], [0], 0) == map[0 := 0];
    var selected := Apply(begun, Select(0, [0]));
    assert selected.workers == SelectedState(cfg, m).workers;
    assert selected.rows == SelectedState(cfg, m).rows;
    assert After(h.before) == Some(selected);
  }

  lemma PromptClaim(cfg: Config, m: OutboxMessage)
    requires Usable(cfg)
    ensures After(ClaimHistory(cfg, m)) == Some(ClaimedState(cfg, m))
  {
    PromptSelection(cfg, m);
    var selected := SelectedState(cfg, m);
    assert Ids([Picked(0, m, 0)]) == [0];
    assert BatchOf([Picked(0, m, 0)]) == [ClaimedMessage(0, m, 1)];
    var claimed := Apply(selected, Commit(0, [0]));
    assert claimed.rows == ClaimedState(cfg, m).rows;
    assert claimed.workers == ClaimedState(cfg, m).workers;
    assert claimed.locks == map[];
  }

  lemma PromptAckSucceeds(cfg: Config, m: OutboxMessage)
    requires Usable(cfg) && cfg.leaseTtl >= 1_000_000
    ensures AckCanSucceed(cfg)
  {
    var h := ClaimHistory(cfg, m);
    PromptClaim(cfg, m);
    var published := Apply(ClaimedState(cfg, m), Publish(0, 0, true));
    var h1 := Then(h, Publish(0, 0, true));
    assert After(h1) == Some(published);
    var acking := Apply(published, AckBegin(0));
    var h2 := Then(h1, AckBegin(0));
    assert After(h2) == Some(acking);
    var a := AckApply(0, 0, "");
    assert Apply(acking, a).rows[0].status == Sent;
    assert AckSucceeds(h2, a, cfg);
  }

  /**
   * The claim statement counts the TTL in whole milliseconds. A worker can ever ack a row
   * exactly when its TTL is at least one millisecond; below that every lease is over the
   * instant it starts, and every ack reports a lost lease.
   */
  lemma AckableExactlyFromOneMillisecond(cfg: Config, m: OutboxMessage)
    requires Usable(cfg)
    ensures AckCanSucceed(cfg) <==> cfg.leaseTtl >= 1_000_000
  {
    if cfg.leaseTtl >= 1_000_000 {
      PromptAckSucceeds(cfg, m);
    } else {
      forall h: History, a: Action | After(h).Some? && a.AckApply? && Enabled(After(h).value, a)
        ensures !AckSucceeds(h, a, cfg)
      {
        var s := After(h).value;
        var p := s.workers[a.w].phase;
        LeasesOnTerms(h, s, p.batch[p.pos].id);
      }
    }
  }
}
