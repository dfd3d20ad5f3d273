/** Fan-out is idempotent: however often an event is handled, each endpoint it goes to gets one original delivery. */
module FanOutTheorems {
  import opened Basics
  import opened DeliveryModel
  import opened DeliveryTables
  import opened DeliverySystem
  import opened EndpointProjections

  ghost predicate GoesTo(eps: seq<EndpointSnapshotWithId>, x: Uuid) {
    exists i :: 0 <= i < |eps| && eps[i].endpointId == x
  }

  /** The rows a fan-out leaves for endpoint `x` of event `e`: those there were, or one for an endpoint in the list. */
  lemma {:induction false} FanOutCovers(deliveries: map<Uuid, Delivery>, event: EventAccepted, eps: seq<EndpointSnapshotWithId>,
                                        ids: seq<Uuid>, now: Time, e: Uuid, x: Uuid)
    requires |ids| == |eps| && FreshIds(deliveries, ids)
    ensures HasOriginal(FanOut(deliveries, event, eps, ids, now), e, x) <==>
            HasOriginal(deliveries, e, x) || (e == event.eventId && GoesTo(eps, x))
    decreases |eps|
  {
    if eps != [] {
      var n := |eps| - 1;
      FanOutCovers(deliveries, event, eps[..n], ids[..n], now, e, x);
      FanOutAdds(deliveries, event, eps[..n], ids[..n], now);
      var before := FanOut(deliveries, event, eps[..n], ids[..n], now);
      assert ids[n] !in ids[..n] && ids[n] !in before;
      InsertCovers(before, event, eps[n], ids[n], now, e, x);
      ListGrows(eps, x);
    }
  }

  lemma ListGrows(eps: seq<EndpointSnapshotWithId>, x: Uuid)
    requires eps != []
    ensures GoesTo(eps, x) <==> GoesTo(eps[..|eps| - 1], x) || eps[|eps| - 1].endpointId == x
  {
    if i :| 0 <= i < |eps| && eps[i].endpointId == x && i < |eps| - 1 {
      assert eps[..|eps| - 1][i].endpointId == x;
    }
  }

  lemma InsertCovers(deliveries: map<Uuid, Delivery>, event: EventAccepted, ep: EndpointSnapshotWithId, id: Uuid, now: Time, e: Uuid, x: Uuid)
    requires id !in deliveries
    ensures HasOriginal(InsertOriginal(deliveries, event, ep, id, now), e, x) <==>
            HasOriginal(deliveries, e, x) || (e == event.eventId && ep.endpointId == x)
  {
    var after := InsertOriginal(deliveries, event, ep, id, now);
    if HasOriginal(deliveries, e, x) {
      var d :| d in deliveries && IsOriginal(deliveries[d], e, x);
      assert d in after && after[d] == deliveries[d];
    }
    if e == event.eventId && ep.endpointId == x && !HasOriginal(deliveries, e, x) {
      assert id in after && IsOriginal(after[id], e, x);
    }
  }

  /** Handling an event whose endpoints all have their originals changes nothing. */
  lemma {:induction false} CoveredFanOutIsIdle(deliveries: map<Uuid, Delivery>, event: EventAccepted, eps: seq<EndpointSnapshotWithId>,
                                               ids: seq<Uuid>, now: Time)
    requires |ids| == |eps|
    requires forall i :: 0 <= i < |eps| ==> HasOriginal(deliveries, event.eventId, eps[i].endpointId)
    ensures FanOut(deliveries, event, eps, ids, now) == deliveries
    decreases |eps|
  {
    if eps != [] {
      CoveredFanOutIsIdle(deliveries, event, eps[..|eps| - 1], ids[..|eps| - 1], now);
    }
  }

  /** One handling of a message: the order in which the projection answered, the ids generated and the time. */
  datatype Handling = Handling(eps: seq<EndpointSnapshotWithId>, ids: seq<Uuid>, now: Time)

  /** `hs` are handlings of `event`, each against the answer of the same projection and with new ids. */
  ghost predicate HandlingsOf(p: Projection, event: EventAccepted, deliveries: map<Uuid, Delivery>, hs: seq<Handling>)
    decreases |hs|
  {
    hs == [] ||
    (var n := |hs| - 1; var h := hs[n];
     && |h.ids| == |h.eps| && Elements(h.eps) == ForEvent(p, event.tenantId, event.eventType)
     && HandlingsOf(p, event, deliveries, hs[..n])
     && FreshIds(Handled(event, deliveries, hs[..n]), h.ids))
  }

  ghost function Handled(event: EventAccepted, deliveries: map<Uuid, Delivery>, hs: seq<Handling>): map<Uuid, Delivery>
    decreases |hs|
  {
    if hs == [] then deliveries
    else
      var n := |hs| - 1; var h := hs[n];
      if |h.ids| == |h.eps| then FanOut(Handled(event, deliveries, hs[..n]), event, h.eps, h.ids, h.now) else deliveries
  }

  /** However often an event is handled against a projection, the deliveries are those of the first handling. */
  lemma {:induction false} HandlingAgainChangesNothing(p: Projection, event: EventAccepted, deliveries: map<Uuid, Delivery>, hs: seq<Handling>)
    requires hs != [] && HandlingsOf(p, event, deliveries, hs)
    ensures HandlingsOf(p, event, deliveries, hs[..1])
    ensures Handled(event, deliveries, hs) == Handled(event, deliveries, hs[..1])
    ensures forall x :: x in ForEvent(p, event.tenantId, event.eventType) ==>
              HasOriginal(Handled(event, deliveries, hs), event.eventId, x.endpointId)
    decreases |hs|
  {
    var n := |hs| - 1;
    var h := hs[n];
    var before := Handled(event, deliveries, hs[..n]);
    forall x | x in ForEvent(p, event.tenantId, event.eventType)
      ensures HasOriginal(Handled(event, deliveries, hs), event.eventId, x.endpointId)
    {
      assert x in Elements(h.eps);
      FanOutCovers(before, event, h.eps, h.ids, h.now, event.eventId, x.endpointId);
    }
    if n == 0 {
      assert hs[..1] == hs;
    } else {
      HandlingAgainChangesNothing(p, event, deliveries, hs[..n]);
      assert hs[..n][..1] == hs[..1];
      forall i | 0 <= i < |h.eps|
        ensures HasOriginal(before, event.eventId, h.eps[i].endpointId)
      {
        assert h.eps[i] in Elements(h.eps);
      }
      CoveredFanOutIsIdle(before, event, h.eps, h.ids, h.now);
    }
  }

  /** Handling a new event any positive number of times yields exactly one original for each active endpoint of its tenant
      subscribed to its type, none for any other endpoint, and leaves every earlier row as it was. */
  lemma EachSubscriberGetsOne(p: Projection, event: EventAccepted, deliveries: map<Uuid, Delivery>, hs: seq<Handling>, x: Uuid)
    requires hs != [] && HandlingsOf(p, event, deliveries, hs) && OneOriginal(deliveries)
    requires forall y :: !HasOriginal(deliveries, event.eventId, y)
    ensures HasOriginal(Handled(event, deliveries, hs), event.eventId, x) <==>
            Selected(p, event.tenantId, event.eventType, Subscription(x, event.eventType))
    ensures OneOriginal(Handled(event, deliveries, hs))
    ensures forall id :: id in deliveries ==> id in Handled(event, deliveries, hs) && Handled(event, deliveries, hs)[id] == deliveries[id]
  {
    HandlingAgainChangesNothing(p, event, deliveries, hs);
    var h := hs[..1][0];
    assert hs[..1][..0] == [];
    assert Handled(event, deliveries, hs) == FanOut(deliveries, event, h.eps, h.ids, h.now);
    FanOutAdds(deliveries, event, h.eps, h.ids, h.now);
    FanOutCovers(deliveries, event, h.eps, h.ids, h.now, event.eventId, x);
    ListIsSelected(p, event, h.eps, x);
  }

  /** An order for an event: its tenant, type and payload, and the URL, secret, timeouts and policy that the projection holds
      for its endpoint. */
  ghost predicate OrderIsFor(o: Order, event: EventAccepted, p: Projection) {
    && o.eventId == event.eventId && o.tenantId == event.tenantId && o.payload == event.payload && o.snapshot.eventType == event.eventType
    && o.endpointId in p.endpoints
    && (var row := p.endpoints[o.endpointId];
        && row.status == Active && o.snapshot.url == row.url && o.snapshot.secretEncrypted == row.secretEncrypted
        && o.snapshot.connectTimeoutMs == row.connectTimeoutMs && o.snapshot.requestTimeoutMs == row.requestTimeoutMs
        && o.snapshot.retryPolicy == row.retryPolicy)
  }

  /** What a delivery created for an event is. */
  ghost predicate IsFor(d: Delivery, event: EventAccepted, p: Projection) {
    d.status == Pending && d.attemptCount == 0 && d.replayOf.None? && OrderIsFor(OrderOf(d), event, p)
  }

  /** One handling against a projection goes to the endpoints it selects, and creates deliveries for the event only. */
  lemma HandlingFollowsTheProjection(p: Projection, event: EventAccepted, deliveries: map<Uuid, Delivery>, eps: seq<EndpointSnapshotWithId>,
                                     ids: seq<Uuid>, now: Time)
    requires |ids| == |eps| && FreshIds(deliveries, ids) && Elements(eps) == ForEvent(p, event.tenantId, event.eventType)
    ensures forall x :: GoesTo(eps, x) <==> Selected(p, event.tenantId, event.eventType, Subscription(x, event.eventType))
    ensures var after := FanOut(deliveries, event, eps, ids, now);
            forall id :: id in after && id !in deliveries ==> IsFor(after[id], event, p)
  {
    forall x
      ensures GoesTo(eps, x) <==> Selected(p, event.tenantId, event.eventType, Subscription(x, event.eventType))
    {
      ListIsSelected(p, event, eps, x);
    }
    FanOutAdds(deliveries, event, eps, ids, now);
    var after := FanOut(deliveries, event, eps, ids, now);
    forall id | id in after && id !in deliveries
      ensures IsFor(after[id], event, p)
    {
      var i :| 0 <= i < |eps| && id == ids[i] && after[id] == NewDelivery(ids[i], event, eps[i], now);
      assert eps[i] in Elements(eps);
      ForEventHas(p, event.tenantId, event.eventType, eps[i]);
    }
  }

  lemma ListIsSelected(p: Projection, event: EventAccepted, eps: seq<EndpointSnapshotWithId>, x: Uuid)
    requires Elements(eps) == ForEvent(p, event.tenantId, event.eventType)
    ensures GoesTo(eps, x) <==> Selected(p, event.tenantId, event.eventType, Subscription(x, event.eventType))
  {
    if i :| 0 <= i < |eps| && eps[i].endpointId == x {
      assert eps[i] in Elements(eps);
      ForEventHas(p, event.tenantId, event.eventType, eps[i]);
    }
    if Selected(p, event.tenantId, event.eventType, Subscription(x, event.eventType)) {
      var answer := EndpointSnapshotWithId(x, SnapshotOf(p.endpoints[x]));
      ForEventHas(p, event.tenantId, event.eventType, answer);
      assert answer in Elements(eps);
      var i :| 0 <= i < |eps| && eps[i] == answer;
    }
  }

  lemma {:induction false} NewDeliveriesAreForTheEvent(p: Projection, event: EventAccepted, deliveries: map<Uuid, Delivery>, hs: seq<Handling>, id: Uuid)
    requires HandlingsOf(p, event, deliveries, hs) && id !in deliveries && id in Handled(event, deliveries, hs)
    ensures IsFor(Handled(event, deliveries, hs)[id], event, p)
    decreases |hs|
  {
    var n := |hs| - 1;
    var h := hs[n];
    var before := Handled(event, deliveries, hs[..n]);
    HandlingFollowsTheProjection(p, event, before, h.eps, h.ids, h.now);
    FanOutAdds(before, event, h.eps, h.ids, h.now);
    assert Handled(event, deliveries, hs) == FanOut(before, event, h.eps, h.ids, h.now);
    if id in before {
      NewDeliveriesAreForTheEvent(p, event, deliveries, hs[..n], id);
    }
  }
}
