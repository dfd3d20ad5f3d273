/** Each transaction of delivery-service/internal/delivery/repository.go as a function from tables to tables.
    The class `DeliveryRepositories.Repository` carries them out step by step; the worlds of `DeliverySystem` interleave them. */
module DeliveryTables {
  import opened Basics
  import opened DeliveryModel

  /** The lease a claim really grants: the configured one is ignored. */
  const LEASE: Time := 30 * SECOND

  // ----- fan-out -----

  predicate IsOriginal(d: Delivery, eventId: Uuid, endpointId: Uuid) {
    d.replayOf.None? && d.eventId == eventId && d.endpointId == endpointId
  }

  /** The partial unique index already holds a row for this event and endpoint. */
  predicate HasOriginal(deliveries: map<Uuid, Delivery>, eventId: Uuid, endpointId: Uuid) {
    exists id :: id in deliveries && IsOriginal(deliveries[id], eventId, endpointId)
  }

  function NewDelivery(id: Uuid, event: EventAccepted, ep: EndpointSnapshotWithId, now: Time): Delivery {
    Delivery(id, event.tenantId, event.eventId, ep.endpointId, Pending, 0, now, None, None, None, None,
             ep.snapshot.(eventType := event.eventType), event.payload, now, now, None)
  }

  function InsertOriginal(deliveries: map<Uuid, Delivery>, event: EventAccepted, ep: EndpointSnapshotWithId,
                          id: Uuid, now: Time): map<Uuid, Delivery>
  {
    if HasOriginal(deliveries, event.eventId, ep.endpointId) then deliveries
    else deliveries[id := NewDelivery(id, event, ep, now)]
  }

  function FanOut(deliveries: map<Uuid, Delivery>, event: EventAccepted, eps: seq<EndpointSnapshotWithId>,
                  ids: seq<Uuid>, now: Time): map<Uuid, Delivery>
    requires |ids| == |eps|
  {
    if eps == [] then deliveries
    else
      var n := |eps| - 1;
      InsertOriginal(FanOut(deliveries, event, eps[..n], ids[..n], now), event, eps[n], ids[n], now)
  }

  /** The ids generated for new rows are new and differ. */
  ghost predicate FreshIds(deliveries: map<Uuid, Delivery>, ids: seq<Uuid>) {
    Distinct(ids) && forall id :: id in ids ==> id !in deliveries
  }

  // ----- claiming -----

  predicate Eligible(d: Delivery, now: Time) {
    || ((d.status == Pending || d.status == Retrying) && d.nextAttemptAt <= now)
    || (d.status == InProgress && d.leaseExpiresAt.Some? && d.leaseExpiresAt.value < now)
  }

  /** ORDER BY next_attempt_at, created_at puts `a` no later than `b`. */
  predicate NotAfter(a: Delivery, b: Delivery) {
    a.nextAttemptAt < b.nextAttemptAt || (a.nextAttemptAt == b.nextAttemptAt && a.createdAt <= b.createdAt)
  }

  /** `rows` is an answer PostgreSQL may give to the claim query: rows locked by other transactions are skipped,
      and rows with equal sort keys may come in any order. */
  ghost predicate ClaimAnswer(deliveries: map<Uuid, Delivery>, locked: set<Uuid>, now: Time, limit: nat, rows: seq<Uuid>) {
    && Distinct(rows)
    && |rows| <= limit
    && (forall id :: id in rows ==> id in deliveries && id !in locked && Eligible(deliveries[id], now))
    && (forall i, j :: 0 <= i < j < |rows| ==> NotAfter(deliveries[rows[i]], deliveries[rows[j]]))
    && (forall id :: id in deliveries && id !in locked && Eligible(deliveries[id], now) && id !in rows ==>
          |rows| == limit && forall r :: r in rows ==> NotAfter(deliveries[r], deliveries[id]))
  }

  function Leased(d: Delivery, worker: string, workerNow: Time, now: Time): Delivery {
    d.(status := InProgress, leaseOwner := Some(worker), leaseExpiresAt := Some(workerNow + LEASE),
       attemptCount := d.attemptCount + 1, lastAttemptAt := Some(workerNow), updatedAt := now)
  }

  function LeaseRows(deliveries: map<Uuid, Delivery>, rows: set<Uuid>, worker: string, workerNow: Time, now: Time): map<Uuid, Delivery> {
    map id | id in deliveries :: if id in rows then Leased(deliveries[id], worker, workerNow, now) else deliveries[id]
  }

  /** The copy the worker keeps: the row as it was read, with the two fields the code bumps by hand.
      Its status and its lease are those from before the claim. */
  function ClaimedCopy(d: Delivery, workerNow: Time): Delivery {
    d.(attemptCount := d.attemptCount + 1, lastAttemptAt := Some(workerNow))
  }

  function CopyKey(d: Delivery): AttemptKey {
    AttemptKey(d.id, d.attemptCount)
  }

  // ----- recording an attempt -----

  /** The status chosen from the worker's copy, never from the row. */
  function NextStatus(copy: Delivery, result: ResultStatus): Status {
    match result
    case Success => Delivered
    case PermanentFailure => Failed
    case RetryableFailure => if copy.attemptCount >= copy.snapshot.retryPolicy.maxAttempts then Dlq else Retrying
  }

  /** The retry time `Deliver` passes on, if any; `retryAt` is its clock plus the backoff delay. */
  function RetryTime(copy: Delivery, result: ResultStatus, retryAt: Time): Option<Time> {
    if result == RetryableFailure && copy.attemptCount < copy.snapshot.retryPolicy.maxAttempts then Some(retryAt) else None
  }

  function Moved(row: Delivery, status: Status, next: Time, now: Time): Delivery {
    row.(status := status, leaseOwner := None, leaseExpiresAt := None,
         completedAt := if Final(status) then Some(now) else None,
         nextAttemptAt := if status == Retrying then next else row.nextAttemptAt,
         updatedAt := now)
  }

  /** RecordAttemptAndTransition. The attempt row is always inserted; the delivery row moves only from IN_PROGRESS. */
  function RecordAttempt(db: Tables, copy: Delivery, result: ResultStatus, next: Option<Time>,
                         latency: Time, workerNow: Time, now: Time): Result<Tables, DbError>
  {
    var key := CopyKey(copy);
    var attempt := Attempt(result, copy.lastAttemptAt.GetOr(workerNow - latency), workerNow);
    var status := NextStatus(copy, result);
    if key in db.attempts then Err(UniqueViolation)
    else if copy.id !in db.deliveries then Err(ForeignKeyViolation)
    else
      var row := db.deliveries[copy.id];
      var attempts := db.attempts[key := attempt];
      if row.status != InProgress then Ok(db.(attempts := attempts))
      else if status == Retrying && next.None? then Err(NotNullViolation)
      else Ok(Tables(db.deliveries[copy.id := Moved(row, status, next.GetOr(now), now)], attempts))
  }

  // ----- replay -----

  predicate Replayable(d: Delivery) {
    d.status == Failed || d.status == Dlq
  }

  function ReplayRow(original: Delivery, id: Uuid, now: Time): Delivery {
    Delivery(id, original.tenantId, original.eventId, original.endpointId, Pending, 0, now, None, None, None,
             Some(original.id), original.snapshot, original.payload, now, now, None)
  }
}
