/** The delivery service's read model of endpoints: delivery-service/internal/endpoint/projection.go. The endpoint row is
    guarded by its version, the subscription rows are not. */
module EndpointProjections {
  import opened Basics
  import opened DeliveryModel

  datatype EndpointStatus = Active | Deleted

  /** EndpointChanged without its event types: what the endpoint row stores. */
  datatype EndpointRow = EndpointRow(
    tenantId: Uuid, name: string, url: string, secretEncrypted: string, status: EndpointStatus,
    connectTimeoutMs: int, requestTimeoutMs: int, retryPolicy: RetryPolicy, version: int, updatedAt: Time)

  /** The message: the full snapshot of an endpoint. */
  datatype EndpointChanged = EndpointChanged(endpointId: Uuid, row: EndpointRow, eventTypes: seq<string>)

  /** The primary key of a subscription row. */
  datatype Subscription = Subscription(endpointId: Uuid, eventType: string)

  datatype Projection = Projection(endpoints: map<Uuid, EndpointRow>, subscriptions: map<Subscription, Uuid>)

  function UpsertRow(endpoints: map<Uuid, EndpointRow>, e: EndpointChanged): map<Uuid, EndpointRow> {
    if e.endpointId in endpoints && endpoints[e.endpointId].version >= e.row.version then endpoints
    else endpoints[e.endpointId := e.row]
  }

  function WithoutEndpoint(subscriptions: map<Subscription, Uuid>, endpointId: Uuid): map<Subscription, Uuid> {
    map s | s in subscriptions && s.endpointId != endpointId :: subscriptions[s]
  }

  function ReplaceSubscriptions(subscriptions: map<Subscription, Uuid>, e: EndpointChanged): map<Subscription, Uuid> {
    WithoutEndpoint(subscriptions, e.endpointId) + map t | t in e.eventTypes :: Subscription(e.endpointId, t) := e.row.tenantId
  }

  function Upserted(p: Projection, e: EndpointChanged): Projection {
    Projection(UpsertRow(p.endpoints, e), ReplaceSubscriptions(p.subscriptions, e))
  }

  /** The projection after a sequence of messages. */
  function Processed(msgs: seq<EndpointChanged>): Projection {
    if msgs == [] then Projection(map[], map[])
    else Upserted(Processed(msgs[..|msgs| - 1]), msgs[|msgs| - 1])
  }

  /** The WHERE and JOIN of GetForEvent, for one subscription row. */
  predicate Selected(p: Projection, tenantId: Uuid, eventType: string, s: Subscription) {
    && s in p.subscriptions && p.subscriptions[s] == tenantId && s.eventType == eventType
    && s.endpointId in p.endpoints && p.endpoints[s.endpointId].status == Active
  }

  function SnapshotOf(row: EndpointRow): EndpointSnapshot {
    EndpointSnapshot("", row.url, row.secretEncrypted, row.connectTimeoutMs, row.requestTimeoutMs, row.retryPolicy)
  }

  /** The endpoints an event fans out to, with the snapshots their deliveries will carry. */
  function ForEvent(p: Projection, tenantId: Uuid, eventType: string): set<EndpointSnapshotWithId> {
    set s | s in p.subscriptions && Selected(p, tenantId, eventType, s) ::
      EndpointSnapshotWithId(s.endpointId, SnapshotOf(p.endpoints[s.endpointId]))
  }

  class Repository {
    var endpoints: map<Uuid, EndpointRow>
    var subscriptions: map<Subscription, Uuid>

    constructor ()
      ensures Rows() == Projection(map[], map[])
    {
      endpoints, subscriptions := map[], map[];
    }

    function Rows(): Projection
      reads this
    {
      Projection(endpoints, subscriptions)
    }

    method Upsert(e: EndpointChanged)
      modifies this
      ensures Rows() == Upserted(old(Rows()), e)
      ensures endpoints == if e.endpointId in old(endpoints) && old(endpoints)[e.endpointId].version >= e.row.version then old(endpoints)
                           else old(endpoints)[e.endpointId := e.row]
      ensures forall s :: s in subscriptions <==>
                if s.endpointId == e.endpointId then s.eventType in e.eventTypes else s in old(subscriptions)
      ensures forall s :: s in subscriptions ==>
                subscriptions[s] == if s.endpointId == e.endpointId then e.row.tenantId else old(subscriptions)[s]
    {
      if e.endpointId !in endpoints || endpoints[e.endpointId].version < e.row.version {
        endpoints := endpoints[e.endpointId := e.row];
      }
      var tx := map s | s in subscriptions && s.endpointId != e.endpointId :: subscriptions[s];
      for i := 0 to |e.eventTypes|
        invariant endpoints == UpsertRow(old(endpoints), e) && subscriptions == old(subscriptions)
        invariant forall s :: s in tx <==>
                    (s in subscriptions && s.endpointId != e.endpointId) || (s.endpointId == e.endpointId && s.eventType in e.eventTypes[..i])
        invariant forall s :: s in tx ==> tx[s] == if s.endpointId == e.endpointId then e.row.tenantId else subscriptions[s]
      {
        var s := Subscription(e.endpointId, e.eventTypes[i]);
        if s !in tx {
          tx := tx[s := e.row.tenantId];
        }
      }
      assert e.eventTypes[..|e.eventTypes|] == e.eventTypes;
      SubscriptionsReplaced(subscriptions, e, tx);
      subscriptions := tx;
    }

    /** `scan` is the order in which the query visits the subscription rows. */
    method GetForEvent(tenantId: Uuid, eventType: string, scan: seq<Subscription>) returns (result: seq<EndpointSnapshotWithId>)
      requires Distinct(scan) && Elements(scan) == subscriptions.Keys
      ensures Elements(result) == ForEvent(Rows(), tenantId, eventType)
      ensures forall x :: x in result <==>
                && Subscription(x.endpointId, eventType) in subscriptions && subscriptions[Subscription(x.endpointId, eventType)] == tenantId
                && x.endpointId in endpoints && endpoints[x.endpointId].status == Active
                && x.snapshot.url == endpoints[x.endpointId].url && x.snapshot.secretEncrypted == endpoints[x.endpointId].secretEncrypted
                && x.snapshot.connectTimeoutMs == endpoints[x.endpointId].connectTimeoutMs
                && x.snapshot.requestTimeoutMs == endpoints[x.endpointId].requestTimeoutMs
                && x.snapshot.retryPolicy == endpoints[x.endpointId].retryPolicy && x.snapshot.eventType == ""
      ensures forall i, j :: 0 <= i < j < |result| ==> result[i].endpointId != result[j].endpointId
    {
      result := [];
      for i := 0 to |scan|
        invariant forall x :: x in result <==> Answers(scan, i, tenantId, eventType, x)
        invariant forall k, l :: 0 <= k < l < |result| ==> result[k].endpointId != result[l].endpointId
      {
        var s := scan[i];
        assert s in Elements(scan);
        if subscriptions[s] == tenantId && s.eventType == eventType && s.endpointId in endpoints && endpoints[s.endpointId].status == Active {
          var row := endpoints[s.endpointId];
          var x := EndpointSnapshotWithId(s.endpointId, EndpointSnapshot("", row.url, row.secretEncrypted, row.connectTimeoutMs,
                                                                         row.requestTimeoutMs, row.retryPolicy));
          assert forall k :: 0 <= k < |result| ==> result[k] in result;
          assert forall k :: 0 <= k < |result| ==> result[k].endpointId != x.endpointId;
          result := result + [x];
        }
      }
      forall x
        ensures x in result <==> x in ForEvent(Rows(), tenantId, eventType)
      {
        ForEventHas(Rows(), tenantId, eventType, x);
        assert forall s :: s in subscriptions ==> s in scan by {
          assert forall s :: s in subscriptions ==> s in Elements(scan);
        }
      }
    }

    ghost predicate Answers(scan: seq<Subscription>, i: nat, tenantId: Uuid, eventType: string, x: EndpointSnapshotWithId)
      requires i <= |scan|
      reads this
    {
      exists k :: 0 <= k < i && Selected(Rows(), tenantId, eventType, scan[k])
                  && x == EndpointSnapshotWithId(scan[k].endpointId, SnapshotOf(endpoints[scan[k].endpointId]))
    }
  }

  lemma SubscriptionsReplaced(subscriptions: map<Subscription, Uuid>, e: EndpointChanged, tx: map<Subscription, Uuid>)
    requires forall s :: s in tx <==>
               (s in subscriptions && s.endpointId != e.endpointId) || (s.endpointId == e.endpointId && s.eventType in e.eventTypes)
    requires forall s :: s in tx ==> tx[s] == if s.endpointId == e.endpointId then e.row.tenantId else subscriptions[s]
    ensures tx == ReplaceSubscriptions(subscriptions, e)
  {
    forall s
      ensures s in tx <==> s in ReplaceSubscriptions(subscriptions, e)
      ensures s in tx ==> tx[s] == ReplaceSubscriptions(subscriptions, e)[s]
    {
      ReplacedHas(subscriptions, e, s);
    }
  }

  lemma ReplacedHas(subscriptions: map<Subscription, Uuid>, e: EndpointChanged, s: Subscription)
    ensures s in ReplaceSubscriptions(subscriptions, e) <==>
            (if s.endpointId == e.endpointId then s.eventType in e.eventTypes else s in subscriptions)
    ensures s in ReplaceSubscriptions(subscriptions, e) ==>
              ReplaceSubscriptions(subscriptions, e)[s] == if s.endpointId == e.endpointId then e.row.tenantId else subscriptions[s]
  {
    var added := map t | t in e.eventTypes :: Subscription(e.endpointId, t) := e.row.tenantId;
    if s.endpointId == e.endpointId && s.eventType in e.eventTypes {
      assert s == Subscription(e.endpointId, s.eventType);
      assert s in added;
    }
    assert s in added <==> s.endpointId == e.endpointId && s.eventType in e.eventTypes;
  }

  // ----- convergence -----

  /** A version of an endpoint has one content, and an endpoint one tenant. */
  ghost predicate Consistent(msgs: seq<EndpointChanged>) {
    forall a, b :: a in msgs && b in msgs && a.endpointId == b.endpointId ==>
      && a.row.tenantId == b.row.tenantId
      && (a.row.version == b.row.version ==> a == b)
  }

  /** `m` carries the highest version of its endpoint. */
  ghost predicate IsLatest(msgs: seq<EndpointChanged>, m: EndpointChanged) {
    m in msgs && forall x :: x in msgs && x.endpointId == m.endpointId ==> x.row.version <= m.row.version
  }

  /** `m` is the last message about its endpoint. */
  ghost predicate IsLast(msgs: seq<EndpointChanged>, m: EndpointChanged) {
    exists i :: 0 <= i < |msgs| && msgs[i] == m && forall j :: i < j < |msgs| ==> msgs[j].endpointId != m.endpointId
  }

  /** The projected rows of endpoint `x` are those of the highest version and of the last message, whatever the order and
      the duplicates, and messages about other endpoints do not matter. */
  lemma {:induction false} ProjectionConverges(msgs: seq<EndpointChanged>, x: Uuid)
    requires Consistent(msgs)
    ensures x in Processed(msgs).endpoints <==> exists m :: m in msgs && m.endpointId == x
    ensures forall m :: IsLatest(msgs, m) && m.endpointId == x ==> Processed(msgs).endpoints[x] == m.row
    ensures forall m, t :: IsLast(msgs, m) && m.endpointId == x ==>
              (Subscription(x, t) in Processed(msgs).subscriptions <==> t in m.eventTypes)
    ensures forall m, t :: IsLast(msgs, m) && m.endpointId == x && t in m.eventTypes ==>
              Processed(msgs).subscriptions[Subscription(x, t)] == m.row.tenantId
    ensures x !in Processed(msgs).endpoints ==> forall t :: Subscription(x, t) !in Processed(msgs).subscriptions
    ensures x in Processed(msgs).endpoints ==> exists m :: m in msgs && m.endpointId == x && m.row == Processed(msgs).endpoints[x]
  {
    if msgs != [] {
      var front, last := msgs[..|msgs| - 1], msgs[|msgs| - 1];
      assert msgs == front + [last];
      ProjectionConverges(front, x);
      RowConverges(front, last, x);
      SubscriptionsFollowTheLast(front, last, x);
    }
  }

  lemma RowConverges(front: seq<EndpointChanged>, last: EndpointChanged, x: Uuid)
    requires Consistent(front + [last])
    requires x in Processed(front).endpoints <==> exists m :: m in front && m.endpointId == x
    requires forall m :: IsLatest(front, m) && m.endpointId == x ==> Processed(front).endpoints[x] == m.row
    requires x in Processed(front).endpoints ==> exists m :: m in front && m.endpointId == x && m.row == Processed(front).endpoints[x]
    ensures var p := Processed(front + [last]);
            && (x in p.endpoints <==> exists m :: m in front + [last] && m.endpointId == x)
            && (forall m :: IsLatest(front + [last], m) && m.endpointId == x ==> p.endpoints[x] == m.row)
            && (x in p.endpoints ==> exists m :: m in front + [last] && m.endpointId == x && m.row == p.endpoints[x])
  {
    var msgs := front + [last];
    assert msgs[..|msgs| - 1] == front;
    var p, p' := Processed(front), Processed(msgs);
    if last.endpointId == x {
      assert last in msgs;
      if x in p.endpoints {
        var m :| m in front && m.endpointId == x && m.row == p.endpoints[x];
        assert m in msgs;
      }
    }
    forall m | IsLatest(msgs, m) && m.endpointId == x
      ensures p'.endpoints[x] == m.row
    {
      if m in front {
        assert IsLatest(front, m);
      }
    }
    if x in p'.endpoints && x in p.endpoints {
      var m :| m in front && m.endpointId == x && m.row == p.endpoints[x];
      assert m in msgs && last in msgs;
    }
  }

  lemma SubscriptionsFollowTheLast(front: seq<EndpointChanged>, last: EndpointChanged, x: Uuid)
    requires forall m, t :: IsLast(front, m) && m.endpointId == x ==>
               (Subscription(x, t) in Processed(front).subscriptions <==> t in m.eventTypes)
    requires forall m, t :: IsLast(front, m) && m.endpointId == x && t in m.eventTypes ==>
               Processed(front).subscriptions[Subscription(x, t)] == m.row.tenantId
    requires x !in Processed(front).endpoints ==> forall t :: Subscription(x, t) !in Processed(front).subscriptions
    ensures var p := Processed(front + [last]);
            && (forall m, t :: IsLast(front + [last], m) && m.endpointId == x ==>
                  (Subscription(x, t) in p.subscriptions <==> t in m.eventTypes)
                  && (t in m.eventTypes ==> p.subscriptions[Subscription(x, t)] == m.row.tenantId))
            && (x !in p.endpoints ==> forall t :: Subscription(x, t) !in p.subscriptions)
  {
    var msgs := front + [last];
    assert msgs[..|msgs| - 1] == front;
    var p, p' := Processed(front), Processed(msgs);
    forall t
      ensures Subscription(x, t) in p'.subscriptions <==>
              if last.endpointId == x then t in last.eventTypes else Subscription(x, t) in p.subscriptions
      ensures Subscription(x, t) in p'.subscriptions ==>
                p'.subscriptions[Subscription(x, t)] == if last.endpointId == x then last.row.tenantId else p.subscriptions[Subscription(x, t)]
    {
      ReplacedHas(p.subscriptions, last, Subscription(x, t));
    }
    forall m | IsLast(msgs, m) && m.endpointId == x
      ensures if last.endpointId == x then m == last else IsLast(front, m)
    {
      LastOfLonger(front, last, m);
    }
  }

  lemma LastOfLonger(front: seq<EndpointChanged>, last: EndpointChanged, m: EndpointChanged)
    requires IsLast(front + [last], m)
    ensures if last.endpointId == m.endpointId then m == last else IsLast(front, m)
  {
    var msgs := front + [last];
    var i :| 0 <= i < |msgs| && msgs[i] == m && forall j :: i < j < |msgs| ==> msgs[j].endpointId != m.endpointId;
    assert msgs[|front|] == last;
    if last.endpointId != m.endpointId {
      assert i < |front| && front[i] == m;
      assert forall j :: i < j < |front| ==> front[j] == msgs[j];
    }
  }

  // ----- what the projection answers -----

  /** Whether `e`, on its own, asks for events of this type. */
  predicate Wants(e: EndpointChanged, tenantId: Uuid, eventType: string) {
    e.row.status == Active && e.row.tenantId == tenantId && eventType in e.eventTypes
  }

  lemma ForEventHas(p: Projection, tenantId: Uuid, eventType: string, x: EndpointSnapshotWithId)
    ensures x in ForEvent(p, tenantId, eventType) <==>
            Selected(p, tenantId, eventType, Subscription(x.endpointId, eventType)) && x.snapshot == SnapshotOf(p.endpoints[x.endpointId])
  {
    if Selected(p, tenantId, eventType, Subscription(x.endpointId, eventType)) && x.snapshot == SnapshotOf(p.endpoints[x.endpointId]) {
      assert Subscription(x.endpointId, eventType) in p.subscriptions;
    }
  }

  /** Exactly when the projection can be trusted for an endpoint: its answers for every tenant and event type are those of
      the latest snapshot if and only if that snapshot is deleted or the last message has the same event types. In
      particular they are whenever the last message is the latest. */
  lemma AnswersAreTheLatest(msgs: seq<EndpointChanged>, latest: EndpointChanged, last: EndpointChanged)
    requires Consistent(msgs) && IsLatest(msgs, latest) && IsLast(msgs, last) && last.endpointId == latest.endpointId
    ensures (forall tenantId, eventType, snapshot ::
               EndpointSnapshotWithId(latest.endpointId, snapshot) in ForEvent(Processed(msgs), tenantId, eventType)
               <==> Wants(latest, tenantId, eventType) && snapshot == SnapshotOf(latest.row))
            <==> latest.row.status == Deleted || Elements(last.eventTypes) == Elements(latest.eventTypes)
  {
    var x := latest.endpointId;
    var p := Processed(msgs);
    ProjectionConverges(msgs, x);
    assert p.endpoints[x] == latest.row;
    assert last in msgs;
    forall tenantId: Uuid, eventType: string, snapshot: EndpointSnapshot
      ensures EndpointSnapshotWithId(x, snapshot) in ForEvent(p, tenantId, eventType)
              <==> latest.row.status == Active && tenantId == latest.row.tenantId && eventType in last.eventTypes && snapshot == SnapshotOf(latest.row)
    {
      ForEventHas(p, tenantId, eventType, EndpointSnapshotWithId(x, snapshot));
    }
    if latest.row.status == Active && Elements(last.eventTypes) != Elements(latest.eventTypes) {
      var t :| t in Elements(last.eventTypes) <==> t !in Elements(latest.eventTypes);
      assert EndpointSnapshotWithId(x, SnapshotOf(latest.row)) in ForEvent(p, latest.row.tenantId, t) <==> !Wants(latest, latest.row.tenantId, t);
    } else if latest.row.status == Active {
      assert forall t :: t in last.eventTypes <==> t in Elements(last.eventTypes);
      assert forall t :: t in latest.eventTypes <==> t in Elements(latest.eventTypes);
    }
  }

  const OLD := EndpointChanged(
    1, EndpointRow(7, "shop", "https://old", "s", Active, 5000, 10000, RetryPolicy(5, "exponential", 10000, 600000, 20), 1, 0), ["order.created"])

  const NEW := EndpointChanged(1, OLD.row.(url := "https://new", version := 2), ["order.paid"])

  /** The smallest way to go wrong: an update that arrives before the snapshot it replaced leaves the new URL subscribed to
      the old event types. */
  lemma LateSnapshotRevivesSubscriptions()
    ensures Consistent([NEW, OLD]) && IsLatest([NEW, OLD], NEW)
    ensures EndpointSnapshotWithId(1, SnapshotOf(NEW.row)) in ForEvent(Processed([NEW, OLD]), 7, "order.created")
    ensures !Wants(NEW, 7, "order.created")
  {
    var msgs := [NEW, OLD];
    assert NEW in msgs && OLD in msgs && Consistent(msgs) && IsLatest(msgs, NEW);
    assert IsLast(msgs, OLD) by { assert msgs[1] == OLD; }
    ProjectionConverges(msgs, 1);
    assert "order.created" in OLD.eventTypes;
    ForEventHas(Processed(msgs), 7, "order.created", EndpointSnapshotWithId(1, SnapshotOf(NEW.row)));
    assert "order.created"[6] != "order.paid"[6];
  }
}
