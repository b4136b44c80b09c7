/**
 * How much work any number of workers can do: every claim spends budget that some row still
 * has, unless it was wasted on a row whose attempts were used up.
 */
module RelayProgress {
  import opened Common
  import opened Entities
  import opened Outbox
  import opened RelayProtocol
  import opened RelaySafety
  import opened RelayCounting
  import opened AttemptLimit
  import Drain

  // ---------------------------------------------------------------- whole tables

  /** The claims a row may still take: at rest its budget, under way what is left if the ack fails. */
  function Left(r: OutboxRow, maxAttempts: int): nat {
    match r.status
    case Pending => if maxAttempts - r.attempts > 1 then maxAttempts - r.attempts else 1
    case Processing => if maxAttempts > r.attempts then maxAttempts - r.attempts else 0
    case _ => 0
  }

  ghost function Budget(t: Table, maxAttempts: int): map<OutboxId, nat> {
    map id | id in t :: Left(t[id], maxAttempts)
  }

  /** At rest that is the budget of the drain. */
  lemma BudgetAtRest(t: Table, maxAttempts: int)
    requires Drain.AllAtRest(t)
    ensures Budget(t, maxAttempts) == Drain.Budgets(t, maxAttempts)
  {
  }

  function Ones(ids: set<OutboxId>): map<OutboxId, nat> {
    map id | id in ids :: 1
  }

  lemma {:induction false} TotalOnes(ids: set<OutboxId>)
    ensures Drain.Total(Ones(ids)) == |ids|
    decreases ids
  {
    if ids == {} {
      assert Ones(ids) == map[];
    } else {
      var id :| id in ids;
      Drain.TotalWithout(Ones(ids), id);
      assert Ones(ids) - {id} == Ones(ids - {id});
      TotalOnes(ids - {id});
    }
  }

  lemma TotalSplit(m: map<OutboxId, nat>, k: OutboxId)
    ensures Drain.Total(m) == Drain.At(m, k) + Drain.Total(m - {k})
  {
    if k in m {
      Drain.TotalWithout(m, k);
    } else {
      assert m - {k} == m;
    }
  }

  /** A balance that holds entry by entry holds for the sums. */
  lemma {:induction false} TotalBalance(m': map<OutboxId, nat>, c: map<OutboxId, nat>, m: map<OutboxId, nat>, w: map<OutboxId, nat>,
                                        keys: set<OutboxId>)
    requires m'.Keys + c.Keys + m.Keys + w.Keys <= keys
    requires forall k :: k in keys ==> Drain.At(m', k) + Drain.At(c, k) <= Drain.At(m, k) + Drain.At(w, k)
    ensures Drain.Total(m') + Drain.Total(c) <= Drain.Total(m) + Drain.Total(w)
    decreases keys
  {
    if keys == {} {
      assert m' == map[] && c == map[];
    } else {
      var k :| k in keys;
      TotalSplit(m', k);
      TotalSplit(c, k);
      TotalSplit(m, k);
      TotalSplit(w, k);
      forall j | j in keys - {k}
        ensures Drain.At(m' - {k}, j) + Drain.At(c - {k}, j) <= Drain.At(m - {k}, j) + Drain.At(w - {k}, j)
      {
        assert Drain.At(m', j) + Drain.At(c, j) <= Drain.At(m, j) + Drain.At(w, j);
      }
      TotalBalance(m' - {k}, c - {k}, m - {k}, w - {k}, keys - {k});
    }
  }

  // ------------------------------------------------------------------------- runs

  function Members(ids: seq<OutboxId>): set<OutboxId> {
    set id | id in ids
  }

  /** The rows an action claims. */
  function ClaimedRows(a: Action): set<OutboxId> {
    if a.Commit? then Members(a.ids) else {}
  }

  /** The rows whose claim an action wastes when their attempts were used up. */
  ghost function WastedRows(s: State, a: Action, maxAttempts: int): set<OutboxId> {
    set id | id in s.rows && WastesLast(Some(s), a, id, maxAttempts)
  }

  /** Claims of rows, one for each row of each committed claim, over the whole history. */
  function ClaimsMade(h: History): nat {
    match h
    case Empty => 0
    case Then(before, a) => ClaimsMade(before) + |ClaimedRows(a)|
  }

  ghost function ClaimsWasted(h: History, maxAttempts: int): nat {
    match h
    case Empty => 0
    case Then(before, a) =>
      ClaimsWasted(before, maxAttempts)
      + if After(before).Some? then |WastedRows(After(before).value, a, maxAttempts)| else 0
  }

  /** No row was inserted or requeued since. */
  ghost predicate NoNewWork(later: History, earlier: History) {
    later == earlier || (later.Then? && !later.last.Insert? && !later.last.Requeue? && NoNewWork(later.before, earlier))
  }

  lemma ClaimOnLeft(h: History, s: State, a: Action, id: OutboxId, maxAttempts: int)
    requires After(h) == Some(s) && a.Commit? && Enabled(s, a) && id in a.ids && maxAttempts >= 1
    ensures id in s.rows && id in Apply(s, a).rows
    ensures Left(Apply(s, a).rows[id], maxAttempts) + 1
         <= Left(s.rows[id], maxAttempts) + (if WastesLast(Some(s), a, id, maxAttempts) then 1 else 0)
  {
    Reachable(h, s);
    var p := s.workers[a.w].phase;
    assert PhaseSound(s, a.w, p);
    var i :| 0 <= i < |p.picked| && p.picked[i].id == id;
    assert StillAsPicked(s, a.w, p.txNow, p.picked[i]);
  }

  lemma AckOnLeft(h: History, s: State, a: Action, id: OutboxId, maxAttempts: int)
    requires After(h) == Some(s) && a.AckApply? && Enabled(s, a) && id in Apply(s, a).rows
    requires s.workers[a.w].cfg.maxAttempts == maxAttempts
    ensures id in s.rows && Left(Apply(s, a).rows[id], maxAttempts) <= Left(s.rows[id], maxAttempts)
  {
    if Apply(s, a).rows != s.rows {
      AckIsFenced(h, s, a);
    }
  }

  lemma OtherStepsOnLeft(s: State, a: Action, id: OutboxId, maxAttempts: int)
    requires Structure(s) && Enabled(s, a) && !a.Insert? && !a.Requeue? && !a.AckApply? && !(a.Commit? && id in a.ids)
    requires id in Apply(s, a).rows
    ensures id in s.rows
    ensures Left(Apply(s, a).rows[id], maxAttempts)
         <= Left(s.rows[id], maxAttempts) + (if WastesLast(Some(s), a, id, maxAttempts) then 1 else 0)
  {
  }

  lemma StepOnLeft(h: History, s: State, a: Action, id: OutboxId, maxAttempts: int)
    requires After(h) == Some(s) && Enabled(s, a) && !a.Insert? && !a.Requeue? && maxAttempts >= 1
    requires a.AckApply? ==> s.workers[a.w].cfg.maxAttempts == maxAttempts
    requires id in Apply(s, a).rows
    ensures id in s.rows
    ensures Left(Apply(s, a).rows[id], maxAttempts) + (if id in ClaimedRows(a) then 1 else 0)
         <= Left(s.rows[id], maxAttempts) + (if WastesLast(Some(s), a, id, maxAttempts) then 1 else 0)
  {
    if a.AckApply? {
      AckOnLeft(h, s, a, id, maxAttempts);
    } else if a.Commit? && id in a.ids {
      ClaimOnLeft(h, s, a, id, maxAttempts);
    } else {
      Reachable(h, s);
      OtherStepsOnLeft(s, a, id, maxAttempts);
    }
  }

  lemma ClaimedRowsExist(h: History, s: State, a: Action)
    requires After(h) == Some(s) && Enabled(s, a)
    ensures ClaimedRows(a) <= s.rows.Keys && s.rows.Keys <= Apply(s, a).rows.Keys
  {
    Reachable(h, s);
    forall id | id in s.rows ensures id in Apply(s, a).rows {
      StepOnRow(s, a, id);
    }
    if a.Commit? {
      var p := s.workers[a.w].phase;
      assert PhaseSound(s, a.w, p);
      forall id | id in a.ids ensures id in s.rows {
        var i :| 0 <= i < |p.picked| && p.picked[i].id == id;
        assert StillAsPicked(s, a.w, p.txNow, p.picked[i]);
      }
    }
  }

  lemma StepBalance(h: History, s: State, a: Action, k: OutboxId, maxAttempts: int)
    requires After(h) == Some(s) && Enabled(s, a) && !a.Insert? && !a.Requeue? && maxAttempts >= 1
    requires a.AckApply? ==> s.workers[a.w].cfg.maxAttempts == maxAttempts
    requires k in Apply(s, a).rows
    ensures Drain.At(Budget(Apply(s, a).rows, maxAttempts), k) + Drain.At(Ones(ClaimedRows(a)), k)
         <= Drain.At(Budget(s.rows, maxAttempts), k) + Drain.At(Ones(WastedRows(s, a, maxAttempts)), k)
  {
    StepOnLeft(h, s, a, k, maxAttempts);
  }

  lemma StepSpends(h: History, s: State, a: Action, maxAttempts: int)
    requires After(h) == Some(s) && Enabled(s, a) && !a.Insert? && !a.Requeue? && maxAttempts >= 1
    requires a.AckApply? ==> s.workers[a.w].cfg.maxAttempts == maxAttempts
    ensures Drain.Total(Budget(Apply(s, a).rows, maxAttempts)) + |ClaimedRows(a)|
         <= Drain.Total(Budget(s.rows, maxAttempts)) + |WastedRows(s, a, maxAttempts)|
  {
    ClaimedRowsExist(h, s, a);
    var m, m' := Budget(s.rows, maxAttempts), Budget(Apply(s, a).rows, maxAttempts);
    var c, w := Ones(ClaimedRows(a)), Ones(WastedRows(s, a, maxAttempts));
    var keys := Apply(s, a).rows.Keys;
    forall k | k in keys ensures Drain.At(m', k) + Drain.At(c, k) <= Drain.At(m, k) + Drain.At(w, k) {
      StepBalance(h, s, a, k, maxAttempts);
    }
    TotalBalance(m', c, m, w, keys);
    TotalOnes(ClaimedRows(a));
    TotalOnes(WastedRows(s, a, maxAttempts));
  }

  /**
   * Over any stretch of a run without new or requeued rows, all workers together make no more
   * claims than the table had budget for, and the claims wasted on rows whose attempts were
   * used up; what budget is left bounds what is still to come.
   */
  lemma {:induction false} ClaimsSpendBudget(earlier: History, later: History, maxAttempts: int)
    requires NoNewWork(later, earlier) && After(later).Some? && After(earlier).Some?
    requires SharedLimit(later, maxAttempts) && maxAttempts >= 1
    ensures ClaimsMade(later) - ClaimsMade(earlier) + Drain.Total(Budget(After(later).value.rows, maxAttempts))
         <= Drain.Total(Budget(After(earlier).value.rows, maxAttempts)) + ClaimsWasted(later, maxAttempts) - ClaimsWasted(earlier, maxAttempts)
  {
    if later != earlier {
      var s, a := After(later.before).value, later.last;
      ClaimsSpendBudget(earlier, later.before, maxAttempts);
      SettledRowsAreExplained(later.before, s, maxAttempts);
      if a.AckApply? {
        assert OutcomeSound(s, later.before, a.w, maxAttempts);
      }
      StepSpends(later.before, s, a, maxAttempts);
    }
  }

  /**
   * Started with nothing under way and no claim wasted since, all workers together make no
   * more claims than one undisturbed worker may need to drain the table.
   */
  lemma ClaimsWithinDrainBudget(earlier: History, later: History, maxAttempts: int)
    requires NoNewWork(later, earlier) && After(later).Some? && After(earlier).Some?
    requires SharedLimit(later, maxAttempts) && maxAttempts >= 1
    requires Drain.AllAtRest(After(earlier).value.rows)
    requires ClaimsWasted(later, maxAttempts) == ClaimsWasted(earlier, maxAttempts)
    ensures ClaimsMade(later) <= ClaimsMade(earlier) + Drain.Total(Drain.Budgets(After(earlier).value.rows, maxAttempts))
  {
    ClaimsSpendBudget(earlier, later, maxAttempts);
    BudgetAtRest(After(earlier).value.rows, maxAttempts);
  }

  // --------------------------------------------------------------------- one row

  predicate NeverRequeued(h: History, id: OutboxId) {
    match h
    case Empty => true
    case Then(before, a) => !(a.Requeue? && a.id == id) && NeverRequeued(before, id)
  }

  /** A row is not claimed before it is inserted. */
  lemma {:induction false} NoClaimBeforeInsert(h: History, s: State, id: OutboxId, ws: set<WorkerId>)
    requires After(h) == Some(s) && id !in s.rows
    ensures Claims(h, id, ws) == 0
  {
    if h.Then? {
      var t := After(h.before).value;
      ClaimedRowsExist(h.before, t, h.last);
      NoClaimBeforeInsert(h.before, t, id, ws);
    }
  }

  lemma {:induction false} ClaimsAreSinceInsert(h: History, s: State, id: OutboxId, ws: set<WorkerId>)
    requires After(h) == Some(s) && NeverRequeued(h, id)
    ensures Claims(h, id, ws) <= ClaimsSinceReset(h, id)
  {
    if h.Then? {
      var t := After(h.before).value;
      if h.last.Insert? && h.last.id == id {
        NoClaimBeforeInsert(h.before, t, id, ws);
      } else {
        ClaimsAreSinceInsert(h.before, t, id, ws);
      }
    }
  }

  /** A row that is never requeued is published at most as often as the shared limit allows, and once more for each wasted claim. */
  lemma PublishesWithinLimit(h: History, s: State, id: OutboxId, ws: set<WorkerId>, maxAttempts: int)
    requires After(h) == Some(s) && id in s.rows && NeverRequeued(h, id)
    requires SharedLimit(h, maxAttempts) && maxAttempts >= 1
    ensures Publishes(h, id, ws) <= maxAttempts + Wasted(h, id)
  {
    PublishesNeverExceedClaims(h, s, id, ws);
    ClaimsAreSinceInsert(h, s, id, ws);
    AttemptsAreConserved(h, s, id);
    OverrunsAreWastedClaims(h, s, id, maxAttempts);
  }
}
