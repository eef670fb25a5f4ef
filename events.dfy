/** `UserEvent`: the lifecycle event the user store emits. The random UUID
    and the clock reading are inputs of the factories. */
module Events {
  import opened Wrappers

  /** `Instant` of `occurredAt`. */
  type Instant = int

  /** The closed enum `UserEvent.Type`. */
  datatype EventType = UserCreated | UserDeleted

  /** A Java `UserEvent`; `userId` is a nullable `Long`. */
  datatype UserEvent = UserEvent(
    eventId: string,
    eventType: EventType,
    userId: Option<int>,
    email: string,
    occurredAt: Instant,
    source: string)

  /** `UserEvent.created`: type fixed to USER_CREATED, the three arguments
      copied, `eventId` and `occurredAt` taken from the fresh UUID and the clock. */
  function Created(eventId: string, userId: Option<int>, email: string, source: string, now: Instant): (e: UserEvent)
    ensures e.eventType == UserCreated
    ensures e.userId == userId && e.email == email && e.source == source
    ensures e.eventId == eventId && e.occurredAt == now
  {
    UserEvent(eventId, UserCreated, userId, email, now, source)
  }

  /** `UserEvent.deleted`: as `created`, with type USER_DELETED. */
  function Deleted(eventId: string, userId: Option<int>, email: string, source: string, now: Instant): (e: UserEvent)
    ensures e.eventType == UserDeleted
    ensures e.userId == userId && e.email == email && e.source == source
    ensures e.eventId == eventId && e.occurredAt == now
  {
    UserEvent(eventId, UserDeleted, userId, email, now, source)
  }

  /** A creation event is never a deletion event, and two factory calls given
      distinct UUIDs build distinct events whatever the other arguments. */
  lemma FactoriesDistinguish(id1: string, id2: string, u1: Option<int>, u2: Option<int>,
                             e1: string, e2: string, s1: string, s2: string, t1: Instant, t2: Instant)
    ensures Created(id1, u1, e1, s1, t1) != Deleted(id2, u2, e2, s2, t2)
    ensures id1 != id2 ==> Created(id1, u1, e1, s1, t1) != Created(id2, u2, e2, s2, t2)
    ensures id1 != id2 ==> Deleted(id1, u1, e1, s1, t1) != Deleted(id2, u2, e2, s2, t2)
  {
  }
}
