/** The delivery service's records: delivery-service/internal/delivery/model.go. */
module DeliveryModel {
  import opened Basics

  datatype Status = Pending | InProgress | Retrying | Delivered | Failed | Dlq | Cancelled

  predicate Final(s: Status) {
    s == Delivered || s == Failed || s == Dlq
  }

  /** What the webhook client made of the endpoint's answer. */
  datatype ResultStatus = Success | RetryableFailure | PermanentFailure

  datatype RetryPolicy = RetryPolicy(
    maxAttempts: int, backoffType: string, initialDelayMs: int, maxDelayMs: int, jitterPercent: int)

  datatype EndpointSnapshot = EndpointSnapshot(
    eventType: string, url: string, secretEncrypted: string,
    connectTimeoutMs: int, requestTimeoutMs: int, retryPolicy: RetryPolicy)

  datatype EndpointSnapshotWithId = EndpointSnapshotWithId(endpointId: Uuid, snapshot: EndpointSnapshot)

  datatype EventAccepted = EventAccepted(eventId: Uuid, tenantId: Uuid, eventType: string, payload: string)

  datatype Delivery = Delivery(
    id: Uuid, tenantId: Uuid, eventId: Uuid, endpointId: Uuid,
    status: Status, attemptCount: int, nextAttemptAt: Time, lastAttemptAt: Option<Time>,
    leaseOwner: Option<string>, leaseExpiresAt: Option<Time>, replayOf: Option<Uuid>,
    snapshot: EndpointSnapshot, payload: string,
    createdAt: Time, updatedAt: Time, completedAt: Option<Time>)

  /** The UNIQUE (delivery_id, attempt_number) key of an attempt row. */
  datatype AttemptKey = AttemptKey(delivery: Uuid, number: int)

  datatype Attempt = Attempt(status: ResultStatus, startedAt: Time, completedAt: Time)

  /** The two tables of the delivery service that its transactions change. */
  datatype Tables = Tables(deliveries: map<Uuid, Delivery>, attempts: map<AttemptKey, Attempt>)

  /** What is sent and where: everything about a delivery that a worker acts on and nothing may alter. */
  datatype Order = Order(
    tenantId: Uuid, eventId: Uuid, endpointId: Uuid, snapshot: EndpointSnapshot, payload: string)

  function OrderOf(d: Delivery): Order {
    Order(d.tenantId, d.eventId, d.endpointId, d.snapshot, d.payload)
  }

  /** The number of attempts a delivery's policy allows; a policy below one still gets its first attempt. */
  function AttemptBudget(d: Delivery): int {
    Max(1, d.snapshot.retryPolicy.maxAttempts)
  }

  /** The attempt numbers of one delivery among `keys`. */
  ghost function Of(keys: set<AttemptKey>, id: Uuid): set<AttemptKey> {
    set k | k in keys && k.delivery == id
  }
}
