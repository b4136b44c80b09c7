/** Retries and concurrent duplicates of keyed writes and promotions. */
module Idempotency {
  import opened Common
  import opened StoreModel
  import opened StoreHistory

  /** The idempotency key and request hash an action works for. */
  datatype Keyed = Unkeyed | Keyed(scope: Scoped, requestHash: string)

  function ForWrite(input: WriteInput): Keyed {
    Keyed(Scoped(input.tenantId, input.key), input.requestHash)
  }

  function ForPromotion(input: PromoteInput): Keyed {
    if input.key == "" then Unkeyed else Keyed(Scoped(input.tenantId, input.key), HashOf(input))
  }

  function RequestOf(s: State, a: Action): Keyed
    requires Enabled(s, a)
  {
    match a
    case WriteLookup(_, input) => ForWrite(input)
    case WriteCommit(tx, _, _, _, _) => ForWrite(s.txs[tx].write)
    case PromoteLookup(_, input) => ForPromotion(input)
    case PromoteCommit(tx, _, _, _) => ForPromotion(s.txs[tx].promote)
    case _ => Unkeyed
  }

  /** The history ends with a successful answer to a request with this key. */
  ghost predicate Succeeds(h: History, scope: Scoped, result: WriteResult) {
    && h.Then? && After(h).Some?
    && RequestOf(After(h.before).value, h.last).Keyed?
    && RequestOf(After(h.before).value, h.last).scope == scope
    && Outcome(After(h.before).value, h.last).reply == Written(result)
  }

  /** The successful answer was the effect itself, not a replay of it. */
  ghost predicate Commits(h: History, scope: Scoped) {
    h.Then? && (h.last.WriteCommit? || h.last.PromoteCommit?) && exists result :: Succeeds(h, scope, result)
  }

  predicate SameAnswer(r: WriteResult, q: WriteResult) {
    r.memoryId == q.memoryId && r.version == q.version && r.record == q.record
  }

  /** A success answers what the table has recorded for the key. */
  lemma SuccessIsRecorded(h: History, scope: Scoped, result: WriteResult)
    requires Succeeds(h, scope, result)
    ensures scope in After(h).value.db.idempotency
    ensures SameAnswer(After(h).value.db.idempotency[scope].response, result)
  {
  }

  /** Every success for a key gives the same memory id, version and record, even after later mutations. */
  lemma OneAnswerPerKey(h1: History, h2: History, scope: Scoped, r1: WriteResult, r2: WriteResult)
    requires Succeeds(h1, scope, r1) && Succeeds(h2, scope, r2) && Continues(h2, h1)
    ensures SameAnswer(r1, r2)
  {
    SuccessIsRecorded(h1, scope, r1);
    SuccessIsRecorded(h2, scope, r2);
    RunGrows(h1, h2);
  }

  lemma EffectNeedsFreshKey(h: History, scope: Scoped)
    requires Commits(h, scope)
    ensures scope !in After(h.before).value.db.idempotency && scope in After(h).value.db.idempotency
  {
  }

  /** Each tenant and key commits at most one effect, across writes and promotions, retries and races. */
  lemma OneEffectPerKey(h1: History, h2: History, scope: Scoped)
    requires Commits(h1, scope) && Commits(h2, scope) && Continues(h2, h1)
    ensures h1 == h2
  {
    EffectNeedsFreshKey(h1, scope);
    EffectNeedsFreshKey(h2, scope);
    if h1 != h2 {
      KeyStaysRecorded(h1, h2.before, scope);
    }
  }

  lemma KeyStaysRecorded(earlier: History, later: History, scope: Scoped)
    requires Continues(later, earlier) && After(later).Some? && After(earlier).Some?
    requires scope in After(earlier).value.db.idempotency
    ensures scope in After(later).value.db.idempotency
    ensures After(later).value.db.idempotency[scope] == After(earlier).value.db.idempotency[scope]
  {
    RunGrows(earlier, later);
  }

  /**
   * A request whose key is recorded is answered by its first statement without touching a
   * table: with the recorded response when the hashes agree, and otherwise with a conflict.
   */
  lemma RecordedKeyAnswers(s: State, a: Action)
    requires Enabled(s, a) && RequestOf(s, a).Keyed? && (a.WriteLookup? || a.PromoteLookup?)
    requires RequestOf(s, a).scope in s.db.idempotency
    requires a.WriteLookup? ==> a.write.tenantId != "" && a.write.key != "" && a.write.requestHash != ""
    requires a.PromoteLookup? ==> a.promote.tenantId != "" && a.promote.memoryId != ""
    ensures var entry := s.db.idempotency[RequestOf(s, a).scope]; var reply := Outcome(s, a).reply;
      && Outcome(s, a).db == s.db
      && if entry.requestHash != RequestOf(s, a).requestHash then reply == Refused(IdempotencyConflict)
         else reply.Written? && SameAnswer(reply.result, entry.response)
              && reply.result.created == (a.WriteLookup? && entry.response.created)
  {
  }

  /** A duplicate that looked the key up too early is refused when it tries to commit, and leaves nothing. */
  lemma LateDuplicateIsRefused(s: State, a: Action)
    requires Enabled(s, a) && (a.WriteCommit? || a.PromoteCommit?)
    requires RequestOf(s, a).Keyed? && RequestOf(s, a).scope in s.db.idempotency
    ensures Outcome(s, a).reply.Refused? && Outcome(s, a).db == s.db
  {
  }
}
