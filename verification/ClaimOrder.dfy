/** Which rows the claim query returns: the oldest claimable ones, up to the batch size. */
module ClaimOrder {
  import opened Common
  import opened Entities
  import opened Outbox
  import opened RelayProtocol

  ghost predicate Available(rows: Table, blocked: set<OutboxId>, txNow: Time, id: OutboxId) {
    id in rows && id !in blocked && Claimable(rows[id], txNow)
  }

  /**
   * ORDER BY created_at ... SKIP LOCKED LIMIT n: distinct available rows, oldest first;
   * a row is left out only when the limit is reached, and then no returned row is younger.
   */
  ghost predicate Selection(rows: Table, blocked: set<OutboxId>, txNow: Time, limit: int, sel: seq<OutboxId>) {
    && Distinct(sel)
    && |sel| <= limit
    && (forall i :: 0 <= i < |sel| ==> Available(rows, blocked, txNow, sel[i]))
    && (forall i, j :: 0 <= i < j < |sel| ==> rows[sel[i]].createdAt <= rows[sel[j]].createdAt)
    && (forall id :: Available(rows, blocked, txNow, id) && id !in sel ==>
          |sel| == limit && forall i :: 0 <= i < |sel| ==> rows[sel[i]].createdAt <= rows[id].createdAt)
  }

  /** The oldest row among the given ones. */
  method Oldest(rows: Table, ids: set<OutboxId>) returns (oldest: OutboxId)
    requires ids != {} && ids <= rows.Keys
    ensures oldest in ids
    ensures forall id :: id in ids ==> rows[oldest].createdAt <= rows[id].createdAt
  {
    oldest :| oldest in ids;
    var rest := ids - {oldest};
    while rest != {}
      invariant rest <= ids && oldest in ids
      invariant forall id :: id in ids - rest ==> rows[oldest].createdAt <= rows[id].createdAt
      decreases rest
    {
      var id :| id in rest;
      if rows[id].createdAt < rows[oldest].createdAt {
        oldest := id;
      }
      rest := rest - {id};
    }
  }

  /** Evaluates the claim query. */
  method SelectOldest(rows: Table, blocked: set<OutboxId>, txNow: Time, limit: int) returns (sel: seq<OutboxId>)
    requires limit > 0
    ensures Selection(rows, blocked, txNow, limit, sel)
  {
    sel := [];
    var left := set id | id in rows && id !in blocked && Claimable(rows[id], txNow);
    while left != {} && |sel| < limit
      invariant Distinct(sel) && |sel| <= limit
      invariant forall i :: 0 <= i < |sel| ==> Available(rows, blocked, txNow, sel[i]) && sel[i] !in left
      invariant forall id :: Available(rows, blocked, txNow, id) ==> id in left || id in sel
      invariant forall id :: id in left ==> Available(rows, blocked, txNow, id)
      invariant forall i, id :: 0 <= i < |sel| && id in left ==> rows[sel[i]].createdAt <= rows[id].createdAt
      invariant forall i, j :: 0 <= i < j < |sel| ==> rows[sel[i]].createdAt <= rows[sel[j]].createdAt
      decreases left
    {
      var next := Oldest(rows, left);
      sel := sel + [next];
      left := left - {next};
    }
  }
}
