/** The whole path of an event: ingestion, publication, a broker that delivers any message any number of times in any order,
    fan-out against the projection of the moment, and delivery, every transaction of each interleaved with every other. */
module EventPipeline {
  import opened Basics
  import opened DeliveryModel
  import opened DeliveryTables
  import opened DeliverySystem
  import opened DeliveryOutcomes
  import opened ReplayForest
  import opened EndpointProjections
  import opened FanOutTheorems
  import E = EventIngestion

  datatype Pipeline = Pipeline(intake: E.Intake, projection: Projection, deliveries: World)

  datatype Step =
    | Ingest(move: E.Move)
    | Project(change: EndpointChanged)
    | Consume(message: E.Message, eps: seq<EndpointSnapshotWithId>, ids: seq<Uuid>)
    | Deliver(action: Action)

  /** What the consumer hands on: the payload and type are fetched from the event service. */
  function AcceptedOf(intake: E.Intake, m: E.Message): EventAccepted
    requires m.eventId in intake.store.events
  {
    var e := intake.store.events[m.eventId];
    EventAccepted(m.eventId, m.tenantId, e.eventType, e.payload)
  }

  function Consumed(p: Pipeline, s: Step): Action
    requires s.Consume? && s.message.eventId in p.intake.store.events
  {
    Accept(AcceptedOf(p.intake, s.message), s.eps, s.ids)
  }

  ghost predicate CanTake(p: Pipeline, s: Step) {
    match s
    case Ingest(move) => E.Possible(p.intake, move)
    case Project(_) => true
    case Consume(m, eps, _) =>
      && m in p.intake.broker && m.eventId in p.intake.store.events
      && Elements(eps) == ForEvent(p.projection, m.tenantId, AcceptedOf(p.intake, m).eventType)
      && Enabled(p.deliveries, Consumed(p, s))
    case Deliver(action) => !action.Accept? && Enabled(p.deliveries, action)
  }

  ghost function Taken(p: Pipeline, s: Step): Pipeline
    requires CanTake(p, s)
  {
    match s
    case Ingest(move) => p.(intake := E.Made(p.intake, move))
    case Project(change) => p.(projection := Upserted(p.projection, change))
    case Consume(_, _, _) => p.(deliveries := Apply(p.deliveries, Consumed(p, s)))
    case Deliver(action) => p.(deliveries := Apply(p.deliveries, action))
  }

  ghost predicate PipelineRun(ps: seq<Pipeline>, steps: seq<Step>) {
    && |ps| == |steps| + 1
    && E.Fresh(ps[0].intake) && ps[0].projection == Projection(map[], map[]) && Initial(ps[0].deliveries)
    && forall i :: 0 <= i < |steps| ==> CanTake(ps[i], steps[i]) && ps[i + 1] == Taken(ps[i], steps[i])
  }

  /** A delivery carries the tenant, type and payload of an event that was accepted. */
  ghost predicate Carries(d: Delivery, events: map<Uuid, E.Event>) {
    && d.eventId in events
    && d.tenantId == events[d.eventId].tenantId
    && d.payload == events[d.eventId].payload
    && d.snapshot.eventType == events[d.eventId].eventType
  }

  ghost predicate AllCarry(deliveries: map<Uuid, Delivery>, events: map<Uuid, E.Event>) {
    forall id :: id in deliveries ==> Carries(deliveries[id], events)
  }

  ghost predicate PipelineInv(p: Pipeline) {
    && E.IntakeInv(p.intake) && Inv(p.deliveries) && Forest(p.deliveries)
    && AllCarry(p.deliveries.db.deliveries, p.intake.store.events)
  }

  lemma IngestKeepsAll(p: Pipeline, s: Step)
    requires PipelineInv(p) && s.Ingest? && CanTake(p, s)
    ensures PipelineInv(Taken(p, s))
  {
    E.MoveKeepsInv(p.intake, s.move);
    EventsOnlyGrow(p.intake, s.move);
    CarryStays(p.deliveries.db.deliveries, p.intake.store.events, E.Made(p.intake, s.move).store.events);
  }

  lemma EventsOnlyGrow(w: E.Intake, m: E.Move)
    requires E.Possible(w, m)
    ensures forall id :: id in w.store.events ==>
              id in E.Made(w, m).store.events && E.Made(w, m).store.events[id] == w.store.events[id]
  {
  }

  lemma CarryStays(deliveries: map<Uuid, Delivery>, events: map<Uuid, E.Event>, events': map<Uuid, E.Event>)
    requires AllCarry(deliveries, events)
    requires forall id :: id in events ==> id in events' && events'[id] == events[id]
    ensures AllCarry(deliveries, events')
  {
  }

  lemma ConsumeKeepsAll(p: Pipeline, s: Step)
    requires PipelineInv(p) && s.Consume? && CanTake(p, s)
    ensures PipelineInv(Taken(p, s))
  {
    var a := Consumed(p, s);
    StepKeepsInv(p.deliveries, a);
    StepKeepsForest(p.deliveries, a);
    ConsumedCarries(p, s);
  }

  lemma ConsumedCarries(p: Pipeline, s: Step)
    requires E.BrokerAgrees(p.intake) && AllCarry(p.deliveries.db.deliveries, p.intake.store.events) && s.Consume? && CanTake(p, s)
    ensures AllCarry(Apply(p.deliveries, Consumed(p, s)).db.deliveries, p.intake.store.events)
  {
    var e := AcceptedOf(p.intake, s.message);
    assert s.message == E.MessageOf(p.intake.store.events[s.message.eventId]);
    FanOutAdds(p.deliveries.db.deliveries, e, s.eps, s.ids, p.deliveries.now);
  }

  /** Rows that keep their orders, and new ones that repeat an order already there, carry what was carried. */
  lemma OrdersCarry(a: Tables, b: Tables, events: map<Uuid, E.Event>)
    requires AllCarry(a.deliveries, events) && Evolves(a, b)
    requires forall id :: id in b.deliveries && id !in a.deliveries ==>
               exists parent :: parent in a.deliveries && OrderOf(b.deliveries[id]) == OrderOf(a.deliveries[parent])
    ensures AllCarry(b.deliveries, events)
  {
    forall id | id in b.deliveries
      ensures Carries(b.deliveries[id], events)
    {
      if id in a.deliveries {
        assert RowEvolves(a.deliveries[id], b.deliveries[id]) && Carries(a.deliveries[id], events);
      } else {
        var parent :| parent in a.deliveries && OrderOf(b.deliveries[id]) == OrderOf(a.deliveries[parent]);
        assert Carries(a.deliveries[parent], events);
      }
    }
  }

  lemma NewRowsRepeatOrders(w: World, a: Action)
    requires Inv(w) && Forest(w) && !a.Accept? && Enabled(w, a)
    ensures forall id :: id in Apply(w, a).db.deliveries && id !in w.db.deliveries ==>
              exists parent :: parent in w.db.deliveries && OrderOf(Apply(w, a).db.deliveries[id]) == OrderOf(w.db.deliveries[parent])
  {
    if a.Report? {
      ReportIsAccepted(w, a.key, a.result, a.retryAt, a.latency, a.workerNow);
    } else if a.WriteReplay? {
      assert CopySound(w.db.deliveries, a.copy);
      assert OrderOf(Apply(w, a).db.deliveries[a.newId]) == OrderOf(w.db.deliveries[a.copy.id]);
    }
  }

  lemma DeliverKeepsAll(p: Pipeline, s: Step)
    requires PipelineInv(p) && s.Deliver? && CanTake(p, s)
    ensures PipelineInv(Taken(p, s))
  {
    StepKeepsInv(p.deliveries, s.action);
    StepKeepsForest(p.deliveries, s.action);
    StepEvolves(p.deliveries, s.action);
    NewRowsRepeatOrders(p.deliveries, s.action);
    OrdersCarry(p.deliveries.db, Apply(p.deliveries, s.action).db, p.intake.store.events);
  }

  lemma {:induction false} PipelineInvAlways(ps: seq<Pipeline>, steps: seq<Step>, i: nat)
    requires PipelineRun(ps, steps) && i < |ps|
    ensures PipelineInv(ps[i])
  {
    if i > 0 {
      PipelineInvAlways(ps, steps, i - 1);
      var s := steps[i - 1];
      if s.Ingest? {
        IngestKeepsAll(ps[i - 1], s);
      } else if s.Consume? {
        ConsumeKeepsAll(ps[i - 1], s);
      } else if s.Deliver? {
        DeliverKeepsAll(ps[i - 1], s);
      }
    }
  }

  /** What is sent is what was accepted: every delivery, original or replay, has the tenant, type and payload of its event. */
  lemma DeliveriesCarryTheirEvents(ps: seq<Pipeline>, steps: seq<Step>, i: nat, id: Uuid)
    requires PipelineRun(ps, steps) && i < |ps| && id in ps[i].deliveries.db.deliveries
    ensures Carries(ps[i].deliveries.db.deliveries[id], ps[i].intake.store.events)
  {
    PipelineInvAlways(ps, steps, i);
  }

  /** At most one original per tenant, idempotency key and endpoint, over the whole pipeline: concurrent repeated publishes,
      a publisher that dies after sending and a broker that duplicates and reorders produce no second one. Replays are not
      originals and do not count. */
  lemma OneOriginalPerKey(ps: seq<Pipeline>, steps: seq<Step>, i: nat, a: Uuid, b: Uuid, k: E.IdempotencyKey, l: E.IdempotencyKey)
    requires PipelineRun(ps, steps) && i < |ps|
    requires a in ps[i].deliveries.db.deliveries && b in ps[i].deliveries.db.deliveries
    requires k in ps[i].intake.store.keys && l in ps[i].intake.store.keys
    requires var x, y := ps[i].deliveries.db.deliveries[a], ps[i].deliveries.db.deliveries[b];
             x.replayOf.None? && y.replayOf.None? && x.endpointId == y.endpointId
             && ps[i].intake.store.keys[k] == x.eventId && ps[i].intake.store.keys[l] == y.eventId
    ensures k == l <==> a == b
  {
    PipelineInvAlways(ps, steps, i);
    assert E.KeysCorrespond(ps[i].intake.store.events, ps[i].intake.store.keys);
    var x, y := ps[i].deliveries.db.deliveries[a], ps[i].deliveries.db.deliveries[b];
    if k == l {
      assert IsOriginal(y, x.eventId, x.endpointId);
    }
  }

  /** Every delivery belongs to exactly one accepted request: its event has one idempotency key, of its own tenant. */
  lemma DeliveriesHaveOneKey(ps: seq<Pipeline>, steps: seq<Step>, i: nat, id: Uuid) returns (k: E.IdempotencyKey)
    requires PipelineRun(ps, steps) && i < |ps| && id in ps[i].deliveries.db.deliveries
    ensures var d, keys := ps[i].deliveries.db.deliveries[id], ps[i].intake.store.keys;
            && k in keys && keys[k] == d.eventId && k.tenantId == d.tenantId
            && forall l :: l in keys && keys[l] == d.eventId ==> l == k
  {
    PipelineInvAlways(ps, steps, i);
    var d := ps[i].deliveries.db.deliveries[id];
    assert Carries(d, ps[i].intake.store.events) && E.HasKey(ps[i].intake.store.keys, d.eventId);
    k :| k in ps[i].intake.store.keys && ps[i].intake.store.keys[k] == d.eventId;
  }

  // ----- originals and the projection -----

  /** At step `i` a message of event `e` was handled when the projection named `x` as an active subscriber. */
  ghost predicate Served(ps: seq<Pipeline>, steps: seq<Step>, i: nat, e: Uuid, x: Uuid)
    requires PipelineRun(ps, steps) && i < |steps|
  {
    steps[i].Consume? && steps[i].message.eventId == e
    && (var event := AcceptedOf(ps[i].intake, steps[i].message);
        Selected(ps[i].projection, event.tenantId, event.eventType, Subscription(x, event.eventType)))
  }

  /** No step but fan-out makes or removes an original. */
  lemma OriginalsStay(w: World, a: Action, e: Uuid, x: Uuid)
    requires Inv(w) && Enabled(w, a) && !a.Accept?
    ensures HasOriginal(Apply(w, a).db.deliveries, e, x) <==> HasOriginal(w.db.deliveries, e, x)
  {
    StepEvolves(w, a);
    OnlyReplaysAppear(w, a);
    var before, after := w.db.deliveries, Apply(w, a).db.deliveries;
    if id :| id in before && IsOriginal(before[id], e, x) {
      assert RowEvolves(before[id], after[id]);
    }
    if id :| id in after && IsOriginal(after[id], e, x) {
      assert RowEvolves(before[id], after[id]);
    }
  }

  lemma OnlyReplaysAppear(w: World, a: Action)
    requires Inv(w) && Enabled(w, a) && !a.Accept?
    ensures forall id :: id in Apply(w, a).db.deliveries && id !in w.db.deliveries ==> Apply(w, a).db.deliveries[id].replayOf.Some?
  {
    if a.Report? {
      ReportIsAccepted(w, a.key, a.result, a.retryAt, a.latency, a.workerNow);
    }
  }

  lemma ConsumeServes(p: Pipeline, s: Step, e: Uuid, x: Uuid)
    requires s.Consume? && CanTake(p, s)
    ensures var event := AcceptedOf(p.intake, s.message);
            HasOriginal(Taken(p, s).deliveries.db.deliveries, e, x) <==>
            HasOriginal(p.deliveries.db.deliveries, e, x)
            || (e == event.eventId && Selected(p.projection, event.tenantId, event.eventType, Subscription(x, event.eventType)))
  {
    var event := AcceptedOf(p.intake, s.message);
    assert Elements(s.eps) == ForEvent(p.projection, event.tenantId, event.eventType) by {
      assert event.tenantId == s.message.tenantId;
    }
    ListIsSelected(p.projection, event, s.eps, x);
    FanOutCovers(p.deliveries.db.deliveries, event, s.eps, s.ids, p.deliveries.now, e, x);
  }

  /** One original per subscriber, over every run: an endpoint has an original delivery of an event if and only if some
      message of the event was handled while the projection named it as an active subscriber of the event's tenant and type,
      however many messages, claims, reports, replays and projected changes came before, between and after. That there is
      only one is `OneOriginalPerKey`. */
  lemma {:induction false} OriginalsFollowTheProjection(ps: seq<Pipeline>, steps: seq<Step>, j: nat, e: Uuid, x: Uuid)
    requires PipelineRun(ps, steps) && j < |ps|
    ensures HasOriginal(ps[j].deliveries.db.deliveries, e, x) <==> exists i :: 0 <= i < j && Served(ps, steps, i, e, x)
  {
    if j > 0 {
      OriginalsFollowTheProjection(ps, steps, j - 1, e, x);
      StepOnOriginals(ps, steps, j - 1, e, x);
    }
  }

  lemma StepOnOriginals(ps: seq<Pipeline>, steps: seq<Step>, i: nat, e: Uuid, x: Uuid)
    requires PipelineRun(ps, steps) && i < |steps|
    ensures HasOriginal(ps[i + 1].deliveries.db.deliveries, e, x) <==>
            HasOriginal(ps[i].deliveries.db.deliveries, e, x) || Served(ps, steps, i, e, x)
  {
    PipelineInvAlways(ps, steps, i);
    if steps[i].Consume? {
      ConsumeServes(ps[i], steps[i], e, x);
    } else if steps[i].Deliver? {
      OriginalsStay(ps[i].deliveries, steps[i].action, e, x);
    }
  }

  /** `o` is what was ordered at step `i`: the event handled there, for an endpoint as the projection then had it. */
  ghost predicate OrderedAt(ps: seq<Pipeline>, steps: seq<Step>, i: nat, o: Order)
    requires PipelineRun(ps, steps) && i < |steps|
  {
    steps[i].Consume? && OrderIsFor(o, AcceptedOf(ps[i].intake, steps[i].message), ps[i].projection)
  }

  ghost predicate Ordered(ps: seq<Pipeline>, steps: seq<Step>, j: nat, o: Order)
    requires PipelineRun(ps, steps) && j <= |steps|
  {
    exists i :: 0 <= i < j && OrderedAt(ps, steps, i, o)
  }

  /** Every delivery, original or replay, sends its event as accepted to its endpoint as the projection had it when some
      message of that event was handled; later changes of the endpoint do not reach it. */
  lemma {:induction false} DeliveriesSendWhatWasProjected(ps: seq<Pipeline>, steps: seq<Step>, j: nat, id: Uuid)
    requires PipelineRun(ps, steps) && j < |ps| && id in ps[j].deliveries.db.deliveries
    ensures Ordered(ps, steps, j, OrderOf(ps[j].deliveries.db.deliveries[id]))
  {
    var i := j - 1;
    var s, before, after := steps[i], ps[i].deliveries, ps[j].deliveries;
    PipelineInvAlways(ps, steps, i);
    assert ps[j] == Taken(ps[i], s);
    if s.Consume? {
      OrderedByConsume(ps, steps, i, id);
    } else if s.Deliver? {
      StepEvolves(before, s.action);
      NewRowsRepeatOrders(before, s.action);
    }
    if id in before.db.deliveries {
      OrderStays(ps, steps, i, id);
      DeliveriesSendWhatWasProjected(ps, steps, i, id);
      OrderedLater(ps, steps, i, OrderOf(before.db.deliveries[id]));
    } else if s.Deliver? {
      var parent :| parent in before.db.deliveries && OrderOf(after.db.deliveries[id]) == OrderOf(before.db.deliveries[parent]);
      DeliveriesSendWhatWasProjected(ps, steps, i, parent);
      OrderedLater(ps, steps, i, OrderOf(before.db.deliveries[parent]));
    }
  }

  lemma OrderedLater(ps: seq<Pipeline>, steps: seq<Step>, j: nat, o: Order)
    requires PipelineRun(ps, steps) && j < |steps| && Ordered(ps, steps, j, o)
    ensures Ordered(ps, steps, j + 1, o)
  {
    var i :| 0 <= i < j && OrderedAt(ps, steps, i, o);
  }

  lemma OrderStays(ps: seq<Pipeline>, steps: seq<Step>, i: nat, id: Uuid)
    requires PipelineRun(ps, steps) && i < |steps| && id in ps[i].deliveries.db.deliveries
    ensures id in ps[i + 1].deliveries.db.deliveries
    ensures OrderOf(ps[i + 1].deliveries.db.deliveries[id]) == OrderOf(ps[i].deliveries.db.deliveries[id])
  {
    PipelineInvAlways(ps, steps, i);
    if steps[i].Consume? {
      StepKeepsOrder(ps[i].deliveries, Consumed(ps[i], steps[i]), id);
    } else if steps[i].Deliver? {
      StepKeepsOrder(ps[i].deliveries, steps[i].action, id);
    }
  }

  lemma StepKeepsOrder(w: World, a: Action, id: Uuid)
    requires Inv(w) && Enabled(w, a) && id in w.db.deliveries
    ensures id in Apply(w, a).db.deliveries && OrderOf(Apply(w, a).db.deliveries[id]) == OrderOf(w.db.deliveries[id])
  {
    StepEvolves(w, a);
    assert RowEvolves(w.db.deliveries[id], Apply(w, a).db.deliveries[id]);
  }

  lemma OrderedByConsume(ps: seq<Pipeline>, steps: seq<Step>, i: nat, id: Uuid)
    requires PipelineRun(ps, steps) && i < |steps| && steps[i].Consume? && id in ps[i + 1].deliveries.db.deliveries
    ensures id !in ps[i].deliveries.db.deliveries ==> Ordered(ps, steps, i + 1, OrderOf(ps[i + 1].deliveries.db.deliveries[id]))
  {
    var p, s := ps[i], steps[i];
    var event := AcceptedOf(p.intake, s.message);
    assert Elements(s.eps) == ForEvent(p.projection, event.tenantId, event.eventType) by {
      assert event.tenantId == s.message.tenantId;
    }
    HandlingFollowsTheProjection(p.projection, event, p.deliveries.db.deliveries, s.eps, s.ids, p.deliveries.now);
    if id !in p.deliveries.db.deliveries {
      assert OrderedAt(ps, steps, i, OrderOf(ps[i + 1].deliveries.db.deliveries[id]));
    }
  }

  // ----- from the request to the delivery -----

  lemma {:induction false} PendingAsked(ps: seq<Pipeline>, steps: seq<Step>, i: nat, tx: nat) returns (c: nat)
    requires PipelineRun(ps, steps) && i < |ps| && tx in ps[i].intake.pending
    ensures c < i && steps[c].Ingest? && steps[c].move.Lookup?
    ensures E.Open(steps[c].move.tenantId, steps[c].move.req) == ps[i].intake.pending[tx]
  {
    assert i > 0;
    if tx in ps[i - 1].intake.pending {
      PendingStays(ps[i - 1], steps[i - 1], tx);
      c := PendingAsked(ps, steps, i - 1, tx);
    } else {
      PendingStays(ps[i - 1], steps[i - 1], tx);
      c := i - 1;
    }
  }

  lemma PendingStays(p: Pipeline, s: Step, tx: nat)
    requires CanTake(p, s) && tx in Taken(p, s).intake.pending
    ensures if tx in p.intake.pending then Taken(p, s).intake.pending[tx] == p.intake.pending[tx]
            else s.Ingest? && s.move.Lookup? && E.Open(s.move.tenantId, s.move.req) == Taken(p, s).intake.pending[tx]
  {
  }

  /** At step `c` a call of tenant `tenantId` asked for an event of this type with this data. */
  ghost predicate AskedFor(steps: seq<Step>, c: nat, tenantId: Uuid, eventType: string, payload: string)
    requires c < |steps|
  {
    && steps[c].Ingest? && steps[c].move.Lookup? && steps[c].move.tenantId == tenantId
    && steps[c].move.req.eventType == eventType && steps[c].move.req.data == payload
  }

  ghost predicate WasAskedFor(steps: seq<Step>, i: nat, tenantId: Uuid, eventType: string, payload: string)
    requires i <= |steps|
  {
    exists c :: 0 <= c < i && AskedFor(steps, c, tenantId, eventType, payload)
  }

  lemma {:induction false} EventsWereAskedFor(ps: seq<Pipeline>, steps: seq<Step>, i: nat, key: E.IdempotencyKey)
    requires PipelineRun(ps, steps) && i < |ps| && key in ps[i].intake.store.keys
    ensures ps[i].intake.store.keys[key] in ps[i].intake.store.events
    ensures var e := ps[i].intake.store.events[ps[i].intake.store.keys[key]];
            e.tenantId == key.tenantId && WasAskedFor(steps, i, e.tenantId, e.eventType, e.payload)
  {
    assert i > 0;
    PipelineInvAlways(ps, steps, i - 1);
    EventStep(ps[i - 1], steps[i - 1], key);
    var e := ps[i].intake.store.events[ps[i].intake.store.keys[key]];
    if key in ps[i - 1].intake.store.keys {
      EventsWereAskedFor(ps, steps, i - 1, key);
      var c :| 0 <= c < i - 1 && AskedFor(steps, c, e.tenantId, e.eventType, e.payload);
    } else {
      var c := PendingAsked(ps, steps, i - 1, steps[i - 1].move.tx);
      assert AskedFor(steps, c, e.tenantId, e.eventType, e.payload);
    }
  }

  lemma EventStep(p: Pipeline, s: Step, key: E.IdempotencyKey)
    requires E.IntakeInv(p.intake) && CanTake(p, s) && key in Taken(p, s).intake.store.keys
    ensures Taken(p, s).intake.store.keys[key] in Taken(p, s).intake.store.events
    ensures var e := Taken(p, s).intake.store.events[Taken(p, s).intake.store.keys[key]];
            && e.tenantId == key.tenantId
            && if key in p.intake.store.keys
               then p.intake.store.keys[key] in p.intake.store.events && e == p.intake.store.events[p.intake.store.keys[key]]
               else s.Ingest? && s.move.Insert? && s.move.tx in p.intake.pending
                    && p.intake.pending[s.move.tx].tenantId == e.tenantId
                    && p.intake.pending[s.move.tx].req.eventType == e.eventType && p.intake.pending[s.move.tx].req.data == e.payload
  {
    if s.Ingest? {
      E.KeyComesFromInsert(p.intake, s.move, key);
    }
    assert E.KeysCorrespond(p.intake.store.events, p.intake.store.keys);
  }

  /** What is sent is what was asked for: every delivery, original or replay, has the tenant, type and data of an earlier request
      to publish. */
  lemma DeliveriesSendWhatWasAskedFor(ps: seq<Pipeline>, steps: seq<Step>, i: nat, id: Uuid)
    requires PipelineRun(ps, steps) && i < |ps| && id in ps[i].deliveries.db.deliveries
    ensures var d := ps[i].deliveries.db.deliveries[id]; WasAskedFor(steps, i, d.tenantId, d.snapshot.eventType, d.payload)
  {
    var key := DeliveriesHaveOneKey(ps, steps, i, id);
    DeliveriesCarryTheirEvents(ps, steps, i, id);
    EventsWereAskedFor(ps, steps, i, key);
  }
}
