/** Progress of repeated RunOnce calls when nothing disturbs them. */
module Drain {
  import opened Common
  import opened Entities
  import opened Outbox
  import opened RelayProtocol
  import opened ClaimOrder

  // ----------------------------------------------------------- finite sums

  ghost function AnyKey(m: map<OutboxId, nat>): (k: OutboxId)
    requires m != map[]
    ensures k in m
  {
    var k :| k in m; k
  }

  ghost function Total(m: map<OutboxId, nat>): nat
    decreases |m|
  {
    if m == map[] then 0 else m[AnyKey(m)] + Total(m - {AnyKey(m)})
  }

  lemma {:induction false} TotalWithout(m: map<OutboxId, nat>, k: OutboxId)
    requires k in m
    ensures Total(m) == m[k] + Total(m - {k})
    decreases |m|
  {
    var p := AnyKey(m);
    if p != k {
      TotalWithout(m - {p}, k);
      TotalWithout(m - {k}, p);
      assert m - {p} - {k} == m - {k} - {p};
    }
  }

  function At(m: map<OutboxId, nat>, k: OutboxId): nat {
    if k in m then m[k] else 0
  }

  lemma {:induction false} TotalMonotone(m: map<OutboxId, nat>, m': map<OutboxId, nat>)
    requires forall k :: At(m', k) <= At(m, k)
    ensures Total(m') <= Total(m)
    decreases |m'|
  {
    if m' != map[] {
      var k := AnyKey(m');
      TotalWithout(m', k);
      assert At(m', k) <= At(m, k);
      if k in m {
        TotalWithout(m, k);
        forall j ensures At(m' - {k}, j) <= At(m - {k}, j) {
          assert At(m', j) <= At(m, j);
        }
        TotalMonotone(m - {k}, m' - {k});
      } else {
        forall j ensures At(m' - {k}, j) <= At(m, j) {
          assert At(m', j) <= At(m, j);
        }
        TotalMonotone(m, m' - {k});
      }
    }
  }

  /** If no entry grows and each of the distinct keys loses at least one, the sum loses one per key. */
  lemma {:induction false} TotalDrops(m: map<OutboxId, nat>, m': map<OutboxId, nat>, keys: seq<OutboxId>)
    requires Distinct(keys)
    requires forall k :: At(m', k) <= At(m, k)
    requires forall i :: 0 <= i < |keys| ==> At(m', keys[i]) < At(m, keys[i])
    ensures Total(m') + |keys| <= Total(m)
    decreases |keys|
  {
    if |keys| == 0 {
      TotalMonotone(m, m');
    } else {
      var k, rest := keys[|keys| - 1], keys[..|keys| - 1];
      var lowered := m[k := m[k] - 1];
      TotalWithout(m, k);
      TotalWithout(lowered, k);
      assert lowered - {k} == m - {k};
      forall j ensures At(m', j) <= At(lowered, j) {
        assert At(m', j) <= At(m, j);
      }
      TotalDrops(lowered, m', rest);
    }
  }

  // ------------------------------------------------------------------- rounds

  predicate Open(r: OutboxRow) {
    r.status == Pending || r.status == Processing
  }

  /** One claim, publish and successful ack of a row, with either publish outcome. */
  ghost predicate Turn(r: OutboxRow, r': OutboxRow, maxAttempts: int) {
    && r'.message == r.message && r'.createdAt == r.createdAt
    && r'.attempts == r.attempts + 1
    && (r'.status == Sent || r'.status == if r'.attempts >= maxAttempts then Failed else Pending)
  }

  /** What an undisturbed RunOnce does to the table when it claims `sel`. */
  ghost predicate Round(t: Table, t': Table, sel: seq<OutboxId>, maxAttempts: int) {
    && t'.Keys == t.Keys
    && (forall i :: 0 <= i < |sel| ==> sel[i] in t && Turn(t[sel[i]], t'[sel[i]], maxAttempts))
    && (forall id :: id in t && id !in sel ==> t'[id] == t[id])
  }

  /** Undisturbed calls one after another: the table before each call and the rows it claims. */
  ghost predicate Rounds(ts: seq<Table>, sels: seq<seq<OutboxId>>, batchSize: int, maxAttempts: int) {
    && |ts| == |sels| + 1
    && AllAtRest(ts[0])
    && forall k :: 0 <= k < |sels| ==> RoundAt(ts, sels, batchSize, maxAttempts, k)
  }

  ghost predicate RoundAt(ts: seq<Table>, sels: seq<seq<OutboxId>>, batchSize: int, maxAttempts: int, k: nat)
    requires k < |sels| && |ts| == |sels| + 1
  {
    && (exists txNow :: Selection(ts[k], {}, txNow, batchSize, sels[k]))
    && Round(ts[k], ts[k + 1], sels[k], maxAttempts)
  }

  lemma RoundsExtend(ts: seq<Table>, sels: seq<seq<OutboxId>>, batchSize: int, maxAttempts: int, t: Table, sel: seq<OutboxId>)
    requires Rounds(ts, sels, batchSize, maxAttempts)
    requires exists txNow :: Selection(ts[|sels|], {}, txNow, batchSize, sel)
    requires Round(ts[|sels|], t, sel, maxAttempts)
    ensures Rounds(ts + [t], sels + [sel], batchSize, maxAttempts)
  {
    forall k | 0 <= k < |sels| + 1 ensures RoundAt(ts + [t], sels + [sel], batchSize, maxAttempts, k) {
      if k < |sels| {
        assert RoundAt(ts, sels, batchSize, maxAttempts, k);
      }
    }
  }

  ghost predicate AllAtRest(t: Table) {
    forall id :: id in t ==> t[id].status != Processing
  }

  ghost predicate AllSettled(t: Table) {
    forall id :: id in t ==> t[id].status == Sent || t[id].status == Failed
  }

  lemma RoundKeepsRest(t: Table, t': Table, sel: seq<OutboxId>, maxAttempts: int)
    requires AllAtRest(t) && Round(t, t', sel, maxAttempts)
    ensures AllAtRest(t')
  {
    forall id | id in t' ensures t'[id].status != Processing {
      if id in sel {
        var i :| 0 <= i < |sel| && sel[i] == id;
        assert Turn(t[sel[i]], t'[sel[i]], maxAttempts);
      }
    }
  }

  lemma {:induction false} StaysAtRest(ts: seq<Table>, sels: seq<seq<OutboxId>>, batchSize: int, maxAttempts: int, k: nat)
    requires Rounds(ts, sels, batchSize, maxAttempts) && k <= |sels|
    ensures AllAtRest(ts[k])
  {
    if k > 0 {
      StaysAtRest(ts, sels, batchSize, maxAttempts, k - 1);
      assert RoundAt(ts, sels, batchSize, maxAttempts, k - 1);
      RoundKeepsRest(ts[k - 1], ts[k], sels[k - 1], maxAttempts);
    }
  }

  // ------------------------------------------------------- termination of drain

  /** Claims a row may still need: its remaining attempts, at least one while it is open. */
  function Weight(r: OutboxRow, maxAttempts: int): nat {
    if !Open(r) then 0 else if maxAttempts - r.attempts > 1 then maxAttempts - r.attempts else 1
  }

  ghost function Budgets(t: Table, maxAttempts: int): map<OutboxId, nat> {
    map id | id in t :: Weight(t[id], maxAttempts)
  }

  /** Every undisturbed call spends at least one unit of the remaining budget per claimed row. */
  lemma RoundSpendsBudget(t: Table, t': Table, sel: seq<OutboxId>, txNow: Time, batchSize: int, maxAttempts: int)
    requires AllAtRest(t) && Selection(t, {}, txNow, batchSize, sel) && Round(t, t', sel, maxAttempts)
    ensures Total(Budgets(t', maxAttempts)) + |sel| <= Total(Budgets(t, maxAttempts))
  {
    var m, m' := Budgets(t, maxAttempts), Budgets(t', maxAttempts);
    forall i | 0 <= i < |sel| ensures At(m', sel[i]) < At(m, sel[i]) {
      assert Available(t, {}, txNow, sel[i]);
    }
    forall k ensures At(m', k) <= At(m, k) {
      if k in sel {
        var i :| 0 <= i < |sel| && sel[i] == k;
        assert At(m', sel[i]) < At(m, sel[i]);
      }
    }
    TotalDrops(m, m', sel);
  }

  /** A call that claims nothing found every row sent or failed. */
  lemma EmptyClaimMeansSettled(t: Table, txNow: Time, batchSize: int)
    requires AllAtRest(t) && batchSize > 0 && Selection(t, {}, txNow, batchSize, [])
    ensures AllSettled(t)
  {
    forall id | id in t ensures t[id].status == Sent || t[id].status == Failed {
      assert !Available(t, {}, txNow, id);
    }
  }

  lemma SettledStays(t: Table, t': Table, sel: seq<OutboxId>, txNow: Time, batchSize: int, maxAttempts: int)
    requires AllSettled(t) && Selection(t, {}, txNow, batchSize, sel) && Round(t, t', sel, maxAttempts)
    ensures AllSettled(t')
  {
    forall id ensures !Available(t, {}, txNow, id) {
      NothingAvailable(t, txNow, id);
    }
  }

  lemma NothingAvailable(t: Table, txNow: Time, id: OutboxId)
    requires AllSettled(t)
    ensures !Available(t, {}, txNow, id)
  {
  }

  lemma RoundSettlesOrSpends(t: Table, t': Table, sel: seq<OutboxId>, txNow: Time, batchSize: int, maxAttempts: int)
    requires AllAtRest(t) && batchSize > 0
    requires Selection(t, {}, txNow, batchSize, sel) && Round(t, t', sel, maxAttempts)
    ensures AllSettled(t) ==> AllSettled(t')
    ensures AllSettled(t') || Total(Budgets(t', maxAttempts)) < Total(Budgets(t, maxAttempts))
  {
    if sel == [] {
      EmptyClaimMeansSettled(t, txNow, batchSize);
    }
    if AllSettled(t) {
      SettledStays(t, t', sel, txNow, batchSize, maxAttempts);
    } else {
      RoundSpendsBudget(t, t', sel, txNow, batchSize, maxAttempts);
    }
  }

  lemma {:induction false} SettledOrSpending(ts: seq<Table>, sels: seq<seq<OutboxId>>, batchSize: int, maxAttempts: int, k: nat)
    requires Rounds(ts, sels, batchSize, maxAttempts) && batchSize > 0 && k <= |sels|
    ensures AllSettled(ts[k]) || Total(Budgets(ts[k], maxAttempts)) + k <= Total(Budgets(ts[0], maxAttempts))
  {
    if k > 0 {
      SettledOrSpending(ts, sels, batchSize, maxAttempts, k - 1);
      StaysAtRest(ts, sels, batchSize, maxAttempts, k - 1);
      assert RoundAt(ts, sels, batchSize, maxAttempts, k - 1);
      var txNow :| Selection(ts[k - 1], {}, txNow, batchSize, sels[k - 1]);
      RoundSettlesOrSpends(ts[k - 1], ts[k], sels[k - 1], txNow, batchSize, maxAttempts);
    }
  }

  lemma {:induction false} NoBudgetMeansSettled(t: Table, maxAttempts: int)
    requires AllAtRest(t) && Total(Budgets(t, maxAttempts)) == 0
    ensures AllSettled(t)
  {
    forall id | id in t ensures t[id].status == Sent || t[id].status == Failed {
      TotalWithout(Budgets(t, maxAttempts), id);
    }
  }

  /**
   * Draining ends. After as many undisturbed calls as the open rows have budget together,
   * every row is sent or failed, whatever the publisher answers.
   */
  lemma DrainEnds(ts: seq<Table>, sels: seq<seq<OutboxId>>, batchSize: int, maxAttempts: int)
    requires Rounds(ts, sels, batchSize, maxAttempts) && batchSize > 0
    requires |sels| >= Total(Budgets(ts[0], maxAttempts))
    ensures AllSettled(ts[|sels|])
  {
    SettledOrSpending(ts, sels, batchSize, maxAttempts, |sels|);
    StaysAtRest(ts, sels, batchSize, maxAttempts, |sels|);
    if !AllSettled(ts[|sels|]) {
      NoBudgetMeansSettled(ts[|sels|], maxAttempts);
    }
  }

  // -------------------------------------------------------------- bounded wait

  /** The budgets of the other pending rows that are no younger than the target. */
  ghost function Ahead(t: Table, target: OutboxId, maxAttempts: int): map<OutboxId, nat>
    requires target in t
  {
    map id | id in t && id != target && t[id].status == Pending && t[id].createdAt <= t[target].createdAt
      :: Weight(t[id], maxAttempts)
  }

  lemma PassedOverSpendsBatch(t: Table, t': Table, sel: seq<OutboxId>, txNow: Time, batchSize: int,
                              maxAttempts: int, target: OutboxId)
    requires AllAtRest(t) && Selection(t, {}, txNow, batchSize, sel) && Round(t, t', sel, maxAttempts)
    requires target in t && t[target].status == Pending && target !in sel
    ensures target in t' && t'[target] == t[target]
    ensures Total(Ahead(t', target, maxAttempts)) + batchSize <= Total(Ahead(t, target, maxAttempts))
  {
    var m, m' := Ahead(t, target, maxAttempts), Ahead(t', target, maxAttempts);
    assert Available(t, {}, txNow, target);
    forall i | 0 <= i < |sel| ensures At(m', sel[i]) < At(m, sel[i]) {
      assert Available(t, {}, txNow, sel[i]);
    }
    forall k ensures At(m', k) <= At(m, k) {
      if k in sel {
        var i :| 0 <= i < |sel| && sel[i] == k;
        assert At(m', sel[i]) < At(m, sel[i]);
      }
    }
    TotalDrops(m, m', sel);
  }

  lemma {:induction false} WaitingShrinksQueue(ts: seq<Table>, sels: seq<seq<OutboxId>>, batchSize: int,
                                               maxAttempts: int, target: OutboxId, k: nat)
    requires Rounds(ts, sels, batchSize, maxAttempts) && k <= |sels|
    requires target in ts[0] && ts[0][target].status == Pending
    requires forall j :: 0 <= j < k ==> target !in sels[j]
    ensures target in ts[k] && ts[k][target] == ts[0][target]
    ensures Total(Ahead(ts[k], target, maxAttempts)) + k * batchSize <= Total(Ahead(ts[0], target, maxAttempts))
  {
    if k > 0 {
      WaitingShrinksQueue(ts, sels, batchSize, maxAttempts, target, k - 1);
      StaysAtRest(ts, sels, batchSize, maxAttempts, k - 1);
      assert RoundAt(ts, sels, batchSize, maxAttempts, k - 1);
      var txNow :| Selection(ts[k - 1], {}, txNow, batchSize, sels[k - 1]);
      PassedOverSpendsBatch(ts[k - 1], ts[k], sels[k - 1], txNow, batchSize, maxAttempts, target);
      assert k * batchSize == (k - 1) * batchSize + batchSize;
    }
  }

  lemma NextMultiple(p: nat, b: int)
    requires b > 0
    ensures (p / b + 1) * b > p
  {
    assert p == (p / b) * b + p % b;
  }

  lemma ClaimedBefore(ts: seq<Table>, sels: seq<seq<OutboxId>>, batchSize: int, maxAttempts: int, target: OutboxId, n: nat)
    requires Rounds(ts, sels, batchSize, maxAttempts) && n <= |sels|
    requires target in ts[0] && ts[0][target].status == Pending
    requires n * batchSize > Total(Ahead(ts[0], target, maxAttempts))
    ensures exists k :: 0 <= k < n && target in sels[k]
  {
    if forall k :: 0 <= k < n ==> target !in sels[k] {
      WaitingShrinksQueue(ts, sels, batchSize, maxAttempts, target, n);
    }
  }

  /**
   * Bounded wait. A pending row is claimed within floor(P / batchSize) + 1 undisturbed
   * calls, where P is the budget of the other pending rows that are no younger.
   */
  lemma ClaimedWithinBound(ts: seq<Table>, sels: seq<seq<OutboxId>>, batchSize: int, maxAttempts: int, target: OutboxId)
    requires Rounds(ts, sels, batchSize, maxAttempts) && batchSize > 0
    requires target in ts[0] && ts[0][target].status == Pending
    requires |sels| >= Total(Ahead(ts[0], target, maxAttempts)) / batchSize + 1
    ensures exists k :: 0 <= k <= Total(Ahead(ts[0], target, maxAttempts)) / batchSize && target in sels[k]
  {
    var p := Total(Ahead(ts[0], target, maxAttempts));
    NextMultiple(p, batchSize);
    ClaimedBefore(ts, sels, batchSize, maxAttempts, target, p / batchSize + 1);
  }
}
