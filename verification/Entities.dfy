/** The values the tables hold: records, events and outbox messages. */
module Entities {
  import opened Common

  type TenantId = string
  type MemoryId = string

  /** Ids drawn from the UUID generator; a fresh draw differs from every earlier one. */
  type EventId = nat
  type OutboxId = nat

  datatype Kind = Working | Episodic | Semantic

  datatype EventType =
    | MemoryCreated | MemoryUpdated | MemoryDeleted
    | MemoryPinned | MemoryUnpinned | MemoryDisabled | MemoryEnabled
    | MemoryPromoted | MemoryDedupeCollapsed

  /** The columns no statement writes after the insert. */
  datatype Origin = Origin(
    userId: string,
    projectId: string,
    sessionId: string,
    source: string,
    contentHash: string,
    createdAt: Time)

  datatype Record = Record(
    memoryId: MemoryId,
    tenantId: TenantId,
    origin: Origin,
    kind: Kind,
    consolidatedFrom: string,
    category: string,
    content: string,
    tags: seq<string>,
    importance: real,
    pinned: bool,
    disabled: bool,
    deleted: bool,
    deletedAt: Option<Time>,
    version: int,
    updatedAt: Time,
    lastAccessAt: Option<Time>,
    hitCount: int)

  /** The message the relay forwards; `loser` is the collapse metadata. */
  datatype OutboxMessage = OutboxMessage(
    version: int,
    tenantId: TenantId,
    memoryId: MemoryId,
    eventType: EventType,
    eventId: EventId,
    record: Record,
    loser: Option<MemoryId>)
}
