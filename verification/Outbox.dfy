/** One row of the outbox table and the statements the relay runs against it. */
module Outbox {
  import opened Common
  import opened Entities

  type WorkerId = nat

  const NANOS_PER_MILLI: int := 1_000_000

  datatype Status = Pending | Processing | Sent | Failed

  datatype OutboxRow = OutboxRow(
    message: OutboxMessage,
    createdAt: Time,
    status: Status,
    attempts: nat,
    sentAt: Option<Time>,
    lastError: Option<string>,
    claimedBy: Option<WorkerId>,
    claimedAt: Option<Time>,
    leaseExpiresAt: Option<Time>)

  type Table = map<OutboxId, OutboxRow>

  /** A relay's tuning; the durations are Go durations, in nanoseconds. */
  datatype Config = Config(batchSize: int, leaseTtl: int, maxAttempts: int)

  const DEFAULT_CONFIG := Config(100, 180_000_000_000, 5)

  function FirstPositive(x: int, y: int): int {
    if x <= 0 then y else x
  }

  /** What NewRelay makes of the configuration it is given. */
  function WithDefaults(c: Config): Config {
    Config(FirstPositive(c.batchSize, DEFAULT_CONFIG.batchSize),
           FirstPositive(c.leaseTtl, DEFAULT_CONFIG.leaseTtl),
           FirstPositive(c.maxAttempts, DEFAULT_CONFIG.maxAttempts))
  }

  predicate Usable(c: Config) {
    c.batchSize > 0 && c.leaseTtl > 0 && c.maxAttempts > 0
  }

  /** The lease the claim statement grants: the TTL cut down to whole milliseconds. */
  function LeaseLength(c: Config): int {
    (c.leaseTtl / NANOS_PER_MILLI) * NANOS_PER_MILLI
  }

  function FreshRow(m: OutboxMessage, createdAt: Time): OutboxRow {
    OutboxRow(m, createdAt, Pending, 0, None, None, None, None, None)
  }

  /** The WHERE clause of the claim query; a NULL lease is never below NOW(). */
  predicate Claimable(r: OutboxRow, txNow: Time) {
    r.status == Pending
    || (r.status == Processing && r.leaseExpiresAt.Some? && r.leaseExpiresAt.value < txNow)
  }

  function ClaimedRow(r: OutboxRow, w: WorkerId, txNow: Time, lease: int): OutboxRow {
    r.(status := Processing,
       claimedBy := Some(w),
       claimedAt := Some(txNow),
       leaseExpiresAt := Some(txNow + lease),
       attempts := r.attempts + 1)
  }

  /** The ownership predicate of Ack; it does not look at the status. */
  predicate Owns(r: OutboxRow, w: WorkerId, txNow: Time) {
    r.claimedBy == Some(w) && r.leaseExpiresAt.Some? && r.leaseExpiresAt.value > txNow
  }

  function Unleased(r: OutboxRow): OutboxRow {
    r.(claimedBy := None, claimedAt := None, leaseExpiresAt := None)
  }

  /** The three SET lists of Ack. */
  function AckedRow(r: OutboxRow, ok: bool, attempt: int, maxAttempts: int, sentAt: Time, err: string): OutboxRow {
    if ok then Unleased(r).(status := Sent, sentAt := Some(sentAt), lastError := None)
    else if attempt >= maxAttempts then Unleased(r).(status := Failed, lastError := Some(err))
    else Unleased(r).(status := Pending, lastError := Some(err))
  }

  function ReleasedRow(r: OutboxRow): OutboxRow {
    Unleased(r).(status := Pending)
  }

  function RequeuedRow(r: OutboxRow): OutboxRow {
    Unleased(r).(status := Pending, attempts := 0, lastError := None)
  }

  // ------------------------------------------------ the statements, column by column

  /** The duration, cut down to whole milliseconds, is d nanoseconds. */
  ghost predicate WholeMillis(d: int, duration: int) {
    d % 1_000_000 == 0 && d <= duration < d + 1_000_000
  }

  lemma LeaseIsWholeMillis(c: Config)
    ensures WholeMillis(LeaseLength(c), c.leaseTtl)
  {
  }

  /** What a claim makes of a row. */
  ghost predicate LeasedTo(r: OutboxRow, r': OutboxRow, w: WorkerId, txNow: Time, ttl: int) {
    && r'.message == r.message && r'.createdAt == r.createdAt && r'.sentAt == r.sentAt && r'.lastError == r.lastError
    && r'.status == Processing && r'.attempts == r.attempts + 1
    && r'.claimedBy == Some(w) && r'.claimedAt == Some(txNow)
    && r'.leaseExpiresAt.Some? && WholeMillis(r'.leaseExpiresAt.value - txNow, ttl)
  }

  /** What an ack makes of a row, given the publisher's answer: None, or the text of its error. */
  ghost predicate SettledAs(r: OutboxRow, r': OutboxRow, answer: Option<string>, maxAttempts: int, sentAt: Time) {
    && r'.message == r.message && r'.createdAt == r.createdAt && r'.attempts == r.attempts
    && r'.claimedBy == None && r'.claimedAt == None && r'.leaseExpiresAt == None
    && r'.lastError == answer
    && r'.sentAt == (if answer == None then Some(sentAt) else r.sentAt)
    && r'.status == (if answer == None then Sent else if r.attempts >= maxAttempts then Failed else Pending)
  }

  /** The lease columns and sent_at say exactly what the status says. */
  ghost predicate Coherent(r: OutboxRow) {
    && (r.status == Processing <==> r.claimedBy.Some?)
    && (r.status == Processing <==> r.claimedAt.Some?)
    && (r.status == Processing <==> r.leaseExpiresAt.Some?)
    && (r.status == Sent <==> r.sentAt.Some?)
  }
}
