/** Counting claims and publishes over whole runs, and what a settled row proves. */
module RelayCounting {
  import opened Common
  import opened Entities
  import opened Outbox
  import opened RelayProtocol
  import opened RelaySafety

  // ------------------------------------------------------- counts of a history

  /** Committed claims of a row since it was inserted or last requeued. */
  function ClaimsSinceReset(h: History, id: OutboxId): nat {
    match h
    case Empty => 0
    case Then(before, a) =>
      if (a.Insert? || a.Requeue?) && a.id == id then 0
      else if a.Commit? && id in a.ids then ClaimsSinceReset(before, id) + 1
      else ClaimsSinceReset(before, id)
  }

  /** Committed claims of a row by workers in ws, over its whole life. */
  function Claims(h: History, id: OutboxId, ws: set<WorkerId>): nat {
    match h
    case Empty => 0
    case Then(before, a) =>
      Claims(before, id, ws) + if a.Commit? && id in a.ids && a.w in ws then 1 else 0
  }

  /** Publish calls made for a row by workers in ws, over its whole life. */
  function Publishes(h: History, id: OutboxId, ws: set<WorkerId>): nat {
    match h
    case Empty => 0
    case Then(before, a) =>
      Publishes(before, id, ws) + if a.Publish? && a.id == id && a.w in ws then 1 else 0
  }

  /** Some publish of the row succeeded. */
  predicate PublishedOnce(h: History, id: OutboxId) {
    match h
    case Empty => false
    case Then(before, a) => (a.Publish? && a.id == id && a.ok) || PublishedOnce(before, id)
  }

  /** Every worker runs with the same attempt limit. */
  predicate SharedLimit(h: History, maxAttempts: int) {
    match h
    case Empty => true
    case Then(before, a) => (a.Start? ==> a.cfg.maxAttempts == maxAttempts) && SharedLimit(before, maxAttempts)
  }

  // ------------------------------------------------------ attempt conservation

  lemma StepOnAttempts(s: State, a: Action, id: OutboxId)
    requires Enabled(s, a) && id in Apply(s, a).rows
    ensures (a.Insert? || a.Requeue?) && a.id == id ==> Apply(s, a).rows[id].attempts == 0
    ensures !((a.Insert? || a.Requeue?) && a.id == id) ==>
      (id in s.rows
       && Apply(s, a).rows[id].attempts == s.rows[id].attempts + if a.Commit? && id in a.ids then 1 else 0)
  {
  }

  /** A row's attempt count is the number of claims since its insertion or last requeue. */
  lemma {:induction false} AttemptsAreConserved(h: History, s: State, id: OutboxId)
    requires After(h) == Some(s) && id in s.rows
    ensures s.rows[id].attempts == ClaimsSinceReset(h, id)
  {
    var t := After(h.before).value;
    StepOnAttempts(t, h.last, id);
    if !((h.last.Insert? || h.last.Requeue?) && h.last.id == id) {
      AttemptsAreConserved(h.before, t, id);
    }
  }

  // ---------------------------------------------- one publish for every claim

  /** The publish a worker still owes the row from the batch it is going through. */
  ghost function Outstanding(s: State, w: WorkerId, id: OutboxId): nat {
    if w in s.workers && OwesPublish(s.workers[w].phase, id) then 1 else 0
  }

  ghost predicate OwesPublish(p: Phase, id: OutboxId) {
    p.Busy() && exists i :: FirstUnpublished(p) <= i < |p.batch| && p.batch[i].id == id
  }

  function FirstUnpublished(p: Phase): nat
    requires p.Busy()
  {
    if p.Publishing? then p.pos else p.pos + 1
  }

  lemma StepPaysPublish(s: State, a: Action, w: WorkerId, id: OutboxId)
    requires Structure(s) && Enabled(s, a)
    ensures Outstanding(Apply(s, a), w, id) + (if a.Publish? && a.id == id && a.w == w then 1 else 0)
         <= Outstanding(s, w, id) + (if a.Commit? && id in a.ids && a.w == w then 1 else 0)
  {
    if Advances(a, w) && w in s.workers {
      var p, p' := s.workers[w].phase, Apply(s, a).workers[w].phase;
      assert PhaseSound(s, w, p);
      if a.Publish? {
        assert BatchIds(p.batch)[p.pos] == p.batch[p.pos].id;
        assert forall i :: p.pos < i < |p.batch| ==> BatchIds(p.batch)[i] == p.batch[i].id != p.batch[p.pos].id;
      } else if a.Commit? && OwesPublish(p', id) {
        var i :| 0 <= i < |p'.batch| && p'.batch[i].id == id;
        assert a.ids[i] == id;
      }
    }
  }

  lemma {:induction false} OneWorkerPublishesItsClaims(h: History, s: State, w: WorkerId, id: OutboxId)
    requires After(h) == Some(s)
    ensures Publishes(h, id, {w}) + Outstanding(s, w, id) <= Claims(h, id, {w})
  {
    if h.Then? {
      var t := After(h.before).value;
      OneWorkerPublishesItsClaims(h.before, t, w, id);
      Reachable(h.before, t);
      StepPaysPublish(t, h.last, w, id);
    }
  }

  lemma {:induction false} CountsAdd(h: History, id: OutboxId, ws: set<WorkerId>, w: WorkerId)
    requires w !in ws
    ensures Claims(h, id, ws + {w}) == Claims(h, id, ws) + Claims(h, id, {w})
    ensures Publishes(h, id, ws + {w}) == Publishes(h, id, ws) + Publishes(h, id, {w})
  {
    if h.Then? {
      CountsAdd(h.before, id, ws, w);
    }
  }

  lemma {:induction false} CountsOfNobody(h: History, id: OutboxId)
    ensures Claims(h, id, {}) == 0 && Publishes(h, id, {}) == 0
  {
    if h.Then? {
      CountsOfNobody(h.before, id);
    }
  }

  /**
   * However many workers publish a row, and whatever leases are lost on the way, the
   * publish calls for a row never exceed its committed claims.
   */
  lemma {:induction false} PublishesNeverExceedClaims(h: History, s: State, id: OutboxId, ws: set<WorkerId>)
    requires After(h) == Some(s)
    ensures Publishes(h, id, ws) <= Claims(h, id, ws)
    decreases ws
  {
    if ws == {} {
      CountsOfNobody(h, id);
    } else {
      var w :| w in ws;
      PublishesNeverExceedClaims(h, s, id, ws - {w});
      OneWorkerPublishesItsClaims(h, s, w, id);
      CountsAdd(h, id, ws - {w}, w);
      assert ws - {w} + {w} == ws;
    }
  }

  /** The workers of a state are all the workers of its history, so their counts are the totals. */
  lemma {:induction false} NobodyElseActs(h: History, s: State, id: OutboxId, ws: set<WorkerId>)
    requires After(h) == Some(s) && s.workers.Keys <= ws
    ensures Claims(h, id, ws) == Claims(h, id, s.workers.Keys)
    ensures Publishes(h, id, ws) == Publishes(h, id, s.workers.Keys)
  {
    if h.Then? {
      var t := After(h.before).value;
      WorkersStay(t, h.last);
      NobodyElseActs(h.before, t, id, ws);
      NobodyElseActs(h.before, t, id, s.workers.Keys);
    }
  }

  // ------------------------------------------------------------- settled rows

  ghost predicate SettledSound(s: State, h: History, id: OutboxId, maxAttempts: int) {
    id in s.rows ==>
      && (s.rows[id].status == Sent ==> PublishedOnce(h, id))
      && (s.rows[id].status == Failed ==> s.rows[id].attempts >= maxAttempts)
  }

  ghost predicate OutcomeSound(s: State, h: History, w: WorkerId, maxAttempts: int) {
    w in s.workers ==>
      && s.workers[w].cfg.maxAttempts == maxAttempts
      && ((s.workers[w].phase.Published? || s.workers[w].phase.Acking?) && s.workers[w].phase.ok
           && s.workers[w].phase.pos < |s.workers[w].phase.batch|
          ==> PublishedOnce(h, s.workers[w].phase.batch[s.workers[w].phase.pos].id))
  }

  lemma StepKeepsOutcome(s: State, h: History, a: Action, w: WorkerId, maxAttempts: int)
    requires Structure(s) && Enabled(s, a) && SharedLimit(Then(h, a), maxAttempts)
    requires OutcomeSound(s, h, w, maxAttempts)
    ensures OutcomeSound(Apply(s, a), Then(h, a), w, maxAttempts)
  {
  }

  lemma StepKeepsSettled(h: History, s: State, a: Action, id: OutboxId, maxAttempts: int)
    requires After(h) == Some(s) && Enabled(s, a)
    requires SettledSound(s, h, id, maxAttempts)
    requires forall w :: w in s.workers ==> OutcomeSound(s, h, w, maxAttempts)
    ensures SettledSound(Apply(s, a), Then(h, a), id, maxAttempts)
  {
    Reachable(h, s);
    if a.AckApply? {
      assert OutcomeSound(s, h, a.w, maxAttempts);
      assert PhaseSound(s, a.w, s.workers[a.w].phase);
      if Apply(s, a).rows != s.rows {
        AckIsFenced(h, s, a);
      }
    }
  }

  /**
   * A sent row has been published successfully, and a failed row has used up the shared
   * attempt limit; a row with neither status is still open.
   */
  lemma {:induction false} SettledRowsAreExplained(h: History, s: State, maxAttempts: int)
    requires After(h) == Some(s) && SharedLimit(h, maxAttempts)
    ensures forall id :: id in s.rows ==> SettledSound(s, h, id, maxAttempts)
    ensures forall w :: w in s.workers ==> OutcomeSound(s, h, w, maxAttempts)
  {
    if h.Then? {
      var t := After(h.before).value;
      SettledRowsAreExplained(h.before, t, maxAttempts);
      Reachable(h.before, t);
      forall id | id in s.rows ensures SettledSound(s, h, id, maxAttempts) {
        StepKeepsSettled(h.before, t, h.last, id, maxAttempts);
      }
      forall w | w in s.workers ensures OutcomeSound(s, h, w, maxAttempts) {
        StepKeepsOutcome(t, h.before, h.last, w, maxAttempts);
      }
    }
  }
}
