/** The delivery service as many workers see it: every committed transaction is one step, a worker keeps copies
    of the rows it claimed, and it may report late, report after its lease was taken over, or never report.
    The invariants below hold in every world that any run can reach. */
module DeliverySystem {
  import opened Basics
  import opened DeliveryModel
  import opened DeliveryTables

  /** What has happened, for stating properties. No step reads it. */
  datatype History = History(
    lost: set<AttemptKey>,       // claims that will never be recorded
    takeovers: set<AttemptKey>,  // claims of a row that was still IN_PROGRESS under an expired lease
    movers: set<AttemptKey>)     // recorded attempts that moved their row to RETRYING

  datatype World = World(
    now: Time, db: Tables,
    inFlight: map<AttemptKey, Delivery>,  // the copies workers hold, by attempt number
    replays: set<Delivery>,               // the copies replay requests have read
    seen: History)

  datatype Action =
    | Advance(to: Time)
    | Accept(event: EventAccepted, eps: seq<EndpointSnapshotWithId>, ids: seq<Uuid>)
    | Claim(worker: string, limit: nat, locked: set<Uuid>, rows: seq<Uuid>, workerNow: Time)
    | Report(key: AttemptKey, result: ResultStatus, retryAt: Time, latency: Time, workerNow: Time)
    | Lose(keys: set<AttemptKey>)
    | ReadReplay(tenantId: Uuid, id: Uuid)
    | WriteReplay(copy: Delivery, newId: Uuid)

  ghost predicate Enabled(w: World, a: Action) {
    match a
    case Advance(to) => w.now <= to
    case Accept(event, eps, ids) => |ids| == |eps| && FreshIds(w.db.deliveries, ids)
    case Claim(_, limit, locked, rows, _) => ClaimAnswer(w.db.deliveries, locked, w.now, limit, rows)
    case Report(key, _, _, _, _) => key in w.inFlight
    case Lose(keys) => keys <= w.inFlight.Keys
    case ReadReplay(tenantId, id) =>
      id in w.db.deliveries && w.db.deliveries[id].tenantId == tenantId && Replayable(w.db.deliveries[id])
    case WriteReplay(copy, newId) => copy in w.replays && newId !in w.db.deliveries
  }

  function ClaimKey(deliveries: map<Uuid, Delivery>, id: Uuid): AttemptKey
    requires id in deliveries
  {
    AttemptKey(id, deliveries[id].attemptCount + 1)
  }

  function Copies(deliveries: map<Uuid, Delivery>, rows: set<Uuid>, workerNow: Time): map<AttemptKey, Delivery>
    requires rows <= deliveries.Keys
  {
    map id | id in rows :: ClaimKey(deliveries, id) := ClaimedCopy(deliveries[id], workerNow)
  }

  function Takeovers(deliveries: map<Uuid, Delivery>, rows: set<Uuid>): set<AttemptKey>
    requires rows <= deliveries.Keys
  {
    set id | id in rows && deliveries[id].status == InProgress :: ClaimKey(deliveries, id)
  }

  function Reported(w: World, key: AttemptKey, result: ResultStatus, next: Option<Time>, latency: Time, workerNow: Time): World
    requires key in w.inFlight
  {
    var copy := w.inFlight[key];
    match RecordAttempt(w.db, copy, result, next, latency, workerNow, w.now)
    case Err(_) => w.(inFlight := w.inFlight - {key}, seen := w.seen.(lost := w.seen.lost + {key}))
    case Ok(db) =>
      var moves := copy.id in w.db.deliveries && w.db.deliveries[copy.id].status == InProgress && NextStatus(copy, result) == Retrying;
      w.(db := db, inFlight := w.inFlight - {key}, seen := w.seen.(movers := w.seen.movers + if moves then {key} else {}))
  }

  ghost function Apply(w: World, a: Action): World
    requires Enabled(w, a)
  {
    match a
    case Advance(to) => w.(now := to)
    case Accept(event, eps, ids) => w.(db := w.db.(deliveries := FanOut(w.db.deliveries, event, eps, ids, w.now)))
    case Claim(worker, _, _, rows, workerNow) =>
      var taken := Elements(rows);
      w.(db := w.db.(deliveries := LeaseRows(w.db.deliveries, taken, worker, workerNow, w.now)),
         inFlight := w.inFlight + Copies(w.db.deliveries, taken, workerNow),
         seen := w.seen.(takeovers := w.seen.takeovers + Takeovers(w.db.deliveries, taken)))
    case Report(key, result, retryAt, latency, workerNow) =>
      Reported(w, key, result, RetryTime(w.inFlight[key], result, retryAt), latency, workerNow)
    case Lose(keys) => w.(inFlight := w.inFlight - keys, seen := w.seen.(lost := w.seen.lost + keys))
    case ReadReplay(_, id) => w.(replays := w.replays + {w.db.deliveries[id]})
    case WriteReplay(copy, newId) =>
      w.(db := w.db.(deliveries := w.db.deliveries[newId := ReplayRow(copy, newId, w.now)]))
  }

  predicate Initial(w: World) {
    w.db == Tables(map[], map[]) && w.inFlight == map[] && w.replays == {} && w.seen == History({}, {}, {})
  }

  /** Each world follows from the one before by `acts`. */
  ghost predicate Segment(ws: seq<World>, acts: seq<Action>) {
    && |ws| == |acts| + 1
    && forall i :: 0 <= i < |acts| ==> Enabled(ws[i], acts[i]) && ws[i + 1] == Apply(ws[i], acts[i])
  }

  /** A run starts with empty tables. */
  ghost predicate Run(ws: seq<World>, acts: seq<Action>) {
    Segment(ws, acts) && Initial(ws[0])
  }

  lemma Joined(ws: seq<World>, acts: seq<Action>, ws': seq<World>, acts': seq<Action>)
    requires Segment(ws, acts) && Segment(ws', acts') && ws'[0] == ws[|acts|]
    ensures Segment(ws + ws'[1..], acts + acts')
  {
    var all, steps := ws + ws'[1..], acts + acts';
    forall i | 0 <= i < |steps|
      ensures Enabled(all[i], steps[i]) && all[i + 1] == Apply(all[i], steps[i])
    {
      if i < |acts| {
        assert steps[i] == acts[i] && all[i] == ws[i] && all[i + 1] == ws[i + 1];
      } else {
        var k := i - |acts|;
        assert steps[i] == acts'[k] && all[i] == ws'[k] && all[i + 1] == ws'[k + 1];
      }
    }
  }

  // ----- the invariants -----

  ghost predicate RowShape(d: Delivery) {
    && d.status != Cancelled
    && d.attemptCount >= 0
    && (d.status == Pending <==> d.attemptCount == 0)
    && (d.leaseOwner.Some? <==> d.status == InProgress)
    && (d.leaseExpiresAt.Some? <==> d.status == InProgress)
    && (d.completedAt.Some? <==> Final(d.status))
  }

  ghost predicate Shaped(w: World) {
    forall id :: id in w.db.deliveries ==> w.db.deliveries[id].id == id && RowShape(w.db.deliveries[id])
  }

  /** Attempt conservation: the numbers 1..attempt_count of each delivery, and no others, are each in exactly one
      of three places: recorded, in flight, or lost. */
  ghost predicate Counted(w: World, key: AttemptKey) {
    key.delivery in w.db.deliveries && 1 <= key.number <= w.db.deliveries[key.delivery].attemptCount
  }

  ghost predicate Conserved(w: World) {
    && (forall key :: key in w.db.attempts ==> Counted(w, key) && key !in w.inFlight && key !in w.seen.lost)
    && (forall key :: key in w.inFlight ==> Counted(w, key) && key !in w.seen.lost)
    && (forall key :: key in w.seen.lost ==> Counted(w, key))
    && (forall key :: Counted(w, key) ==> key in w.db.attempts || key in w.inFlight || key in w.seen.lost)
  }

  /** A copy carries its key and the order of the row it was read from. */
  ghost predicate CopiesAgree(w: World) {
    forall key :: key in w.inFlight ==>
      && CopyKey(w.inFlight[key]) == key
      && key.delivery in w.db.deliveries
      && OrderOf(w.inFlight[key]) == OrderOf(w.db.deliveries[key.delivery])
      && w.inFlight[key].lastAttemptAt.Some?
  }

  /** A final status is backed by a recorded attempt with the outcome that leads to it. */
  ghost predicate Backs(d: Delivery, key: AttemptKey, attempt: Attempt) {
    && key.delivery == d.id
    && match d.status
       case Delivered => attempt.status == Success
       case Failed => attempt.status == PermanentFailure
       case Dlq => attempt.status == RetryableFailure && key.number >= d.snapshot.retryPolicy.maxAttempts
       case Retrying => attempt.status == RetryableFailure && key.number < d.snapshot.retryPolicy.maxAttempts
       case _ => true
  }

  ghost predicate Backed(w: World, d: Delivery) {
    exists key :: key in w.db.attempts && Backs(d, key, w.db.attempts[key])
  }

  ghost predicate Justified(w: World) {
    forall id :: id in w.db.deliveries && (Final(w.db.deliveries[id].status) || w.db.deliveries[id].status == Retrying) ==>
      Backed(w, w.db.deliveries[id])
  }

  /** The partial unique index. */
  ghost predicate OneOriginal(deliveries: map<Uuid, Delivery>) {
    forall a, b ::
      (a in deliveries && b in deliveries && deliveries[a].replayOf.None?
       && IsOriginal(deliveries[b], deliveries[a].eventId, deliveries[a].endpointId))
      ==> a == b
  }

  ghost predicate Inv(w: World) {
    Shaped(w) && Conserved(w) && CopiesAgree(w) && Justified(w) && OneOriginal(w.db.deliveries)
  }

  // ----- what single transactions keep -----

  /** Fan-out adds pending rows under the new ids, at most one original per endpoint, and changes no other row. */
  lemma {:induction false} FanOutAdds(deliveries: map<Uuid, Delivery>, event: EventAccepted, eps: seq<EndpointSnapshotWithId>,
                                      ids: seq<Uuid>, now: Time)
    requires |ids| == |eps| && FreshIds(deliveries, ids)
    ensures var after := FanOut(deliveries, event, eps, ids, now);
            && (forall id :: id in deliveries ==> id in after && after[id] == deliveries[id])
            && (forall id :: id in after && id !in deliveries ==>
                  exists i :: 0 <= i < |eps| && id == ids[i] && after[id] == NewDelivery(ids[i], event, eps[i], now))
            && (OneOriginal(deliveries) ==> OneOriginal(after))
    decreases |eps|
  {
    if eps != [] {
      var n := |eps| - 1;
      FanOutAdds(deliveries, event, eps[..n], ids[..n], now);
      var before := FanOut(deliveries, event, eps[..n], ids[..n], now);
      assert ids[n] !in ids[..n];
      var after := FanOut(deliveries, event, eps, ids, now);
      forall id | id in after && id !in deliveries
        ensures exists i :: 0 <= i < |eps| && id == ids[i] && after[id] == NewDelivery(ids[i], event, eps[i], now)
      {
        if id in before {
          var i :| 0 <= i < n && id == ids[..n][i] && before[id] == NewDelivery(ids[..n][i], event, eps[..n][i], now);
          assert id == ids[i] && after[id] == NewDelivery(ids[i], event, eps[i], now);
        } else {
          assert id == ids[n] && after[id] == NewDelivery(ids[n], event, eps[n], now);
        }
      }
    }
  }

  lemma AdvanceKeepsInv(w: World, a: Action)
    requires Inv(w) && a.Advance? && Enabled(w, a)
    ensures Inv(Apply(w, a))
  {
    JustifiedStays(w, Apply(w, a));
  }

  /** Rows in a status that needs backing are old ones, as they were, and no attempt is forgotten. */
  lemma JustifiedStays(w: World, w': World)
    requires Justified(w)
    requires forall key :: key in w.db.attempts ==> key in w'.db.attempts && w'.db.attempts[key] == w.db.attempts[key]
    requires forall id :: id in w'.db.deliveries && (Final(w'.db.deliveries[id].status) || w'.db.deliveries[id].status == Retrying) ==>
               id in w.db.deliveries && w'.db.deliveries[id] == w.db.deliveries[id]
    ensures Justified(w')
  {
    forall id | id in w'.db.deliveries && (Final(w'.db.deliveries[id].status) || w'.db.deliveries[id].status == Retrying)
      ensures Backed(w', w'.db.deliveries[id])
    {
      BackedStays(w, w', w.db.deliveries[id]);
    }
  }

  lemma BackedStays(w: World, w': World, d: Delivery)
    requires Backed(w, d)
    requires forall key :: key in w.db.attempts ==> key in w'.db.attempts && w'.db.attempts[key] == w.db.attempts[key]
    ensures Backed(w', d)
  {
    var key :| key in w.db.attempts && Backs(d, key, w.db.attempts[key]);
    assert key in w'.db.attempts && Backs(d, key, w'.db.attempts[key]);
  }

  lemma AcceptKeepsInv(w: World, a: Action)
    requires Inv(w) && a.Accept? && Enabled(w, a)
    ensures Inv(Apply(w, a))
  {
    var w' := Apply(w, a);
    FanOutAdds(w.db.deliveries, a.event, a.eps, a.ids, w.now);
    JustifiedStays(w, w');
    assert forall key :: Counted(w', key) <==> Counted(w, key);
  }

  lemma ClaimKeepsInv(w: World, a: Action)
    requires Inv(w) && a.Claim? && Enabled(w, a)
    ensures Inv(Apply(w, a))
  {
    ClaimKeepsRows(w, a);
    ClaimConserves(w, a);
  }

  lemma ClaimKeepsRows(w: World, a: Action)
    requires Shaped(w) && Justified(w) && OneOriginal(w.db.deliveries) && a.Claim? && Enabled(w, a)
    ensures Shaped(Apply(w, a)) && Justified(Apply(w, a)) && OneOriginal(Apply(w, a).db.deliveries)
  {
    ClaimKeepsShape(w, a);
    ClaimKeepsJustified(w, a);
    LeasingKeepsOriginals(w.db.deliveries, Apply(w, a).db.deliveries);
  }

  lemma ClaimKeepsShape(w: World, a: Action)
    requires Shaped(w) && a.Claim? && Enabled(w, a)
    ensures Shaped(Apply(w, a))
  {
  }

  lemma ClaimKeepsJustified(w: World, a: Action)
    requires Justified(w) && a.Claim? && Enabled(w, a)
    ensures Justified(Apply(w, a))
  {
    JustifiedStays(w, Apply(w, a));
  }

  lemma LeasingKeepsOriginals(a: map<Uuid, Delivery>, b: map<Uuid, Delivery>)
    requires OneOriginal(a) && a.Keys == b.Keys
    requires forall id :: id in a ==> b[id].replayOf == a[id].replayOf && b[id].eventId == a[id].eventId && b[id].endpointId == a[id].endpointId
    ensures OneOriginal(b)
  {
  }

  lemma CopiesHas(deliveries: map<Uuid, Delivery>, rows: set<Uuid>, workerNow: Time, key: AttemptKey)
    requires rows <= deliveries.Keys
    ensures key in Copies(deliveries, rows, workerNow) <==> key.delivery in rows && key == ClaimKey(deliveries, key.delivery)
    ensures key in Copies(deliveries, rows, workerNow) ==>
              Copies(deliveries, rows, workerNow)[key] == ClaimedCopy(deliveries[key.delivery], workerNow)
  {
    if key.delivery in rows {
      assert ClaimKey(deliveries, key.delivery) in Copies(deliveries, rows, workerNow);
    }
  }

  lemma ClaimConserves(w: World, a: Action)
    requires Inv(w) && a.Claim? && Enabled(w, a)
    ensures Conserved(Apply(w, a)) && CopiesAgree(Apply(w, a))
  {
    var w' := Apply(w, a);
    var taken := Elements(a.rows);
    var copies := Copies(w.db.deliveries, taken, a.workerNow);
    forall key
      ensures Counted(w', key) <==> Counted(w, key) || key in copies
      ensures key in copies ==> !Counted(w, key)
    {
      CopiesHas(w.db.deliveries, taken, a.workerNow, key);
    }
    ClaimKeepsPartition(w, w', copies);
    ClaimCopiesAgree(w, a);
  }

  lemma ClaimCopiesAgree(w: World, a: Action)
    requires Shaped(w) && CopiesAgree(w) && a.Claim? && Enabled(w, a)
    ensures CopiesAgree(Apply(w, a))
  {
    var w' := Apply(w, a);
    forall key | key in w'.inFlight
      ensures && CopyKey(w'.inFlight[key]) == key
              && key.delivery in w'.db.deliveries
              && OrderOf(w'.inFlight[key]) == OrderOf(w'.db.deliveries[key.delivery])
              && w'.inFlight[key].lastAttemptAt.Some?
    {
      CopiesHas(w.db.deliveries, Elements(a.rows), a.workerNow, key);
    }
  }

  /** New numbers that nobody held may join those in flight. */
  lemma ClaimKeepsPartition(w: World, w': World, copies: map<AttemptKey, Delivery>)
    requires Conserved(w)
    requires w'.db.attempts == w.db.attempts && w'.inFlight == w.inFlight + copies && w'.seen.lost == w.seen.lost
    requires forall key :: Counted(w', key) <==> Counted(w, key) || key in copies
    requires forall key :: key in copies ==> !Counted(w, key)
    ensures Conserved(w')
  {
  }

  /** What recording the claim `key` does to a world that satisfies the invariant: no constraint is violated (the
      attempt number is unused, the delivery exists, a row that moves to RETRYING is given a time), one attempt row
      appears, and at most the one delivery row changes. */
  ghost predicate ReportEffect(w: World, w': World, key: AttemptKey, result: ResultStatus)
    requires key in w.inFlight && key.delivery in w.db.deliveries
  {
    var copy, row := w.inFlight[key], w.db.deliveries[key.delivery];
    && key !in w.db.attempts
    && key in w'.db.attempts && w'.db.attempts == w.db.attempts[key := w'.db.attempts[key]]
    && w'.db.attempts[key].status == result
    && key.delivery in w'.db.deliveries
    && w'.db.deliveries == w.db.deliveries[key.delivery := w'.db.deliveries[key.delivery]]
    && (var row' := w'.db.deliveries[key.delivery];
        if row.status == InProgress
        then exists next :: row' == Moved(row, NextStatus(copy, result), next, w.now)
        else row' == row)
    && w'.now == w.now && w'.inFlight == w.inFlight - {key} && w'.replays == w.replays
    && w'.seen.lost == w.seen.lost && w'.seen.takeovers == w.seen.takeovers
    && w'.seen.movers == w.seen.movers + (if row.status == InProgress && NextStatus(copy, result) == Retrying then {key} else {})
  }

  lemma ReportIsAccepted(w: World, key: AttemptKey, result: ResultStatus, retryAt: Time, latency: Time, workerNow: Time)
    requires Inv(w) && key in w.inFlight
    ensures RecordAttempt(w.db, w.inFlight[key], result, RetryTime(w.inFlight[key], result, retryAt), latency, workerNow, w.now).Ok?
    ensures ReportEffect(w, Apply(w, Report(key, result, retryAt, latency, workerNow)), key, result)
  {
    assert CopyKey(w.inFlight[key]) == key;
    var copy := w.inFlight[key];
    var next := RetryTime(copy, result, retryAt);
    var w' := Reported(w, key, result, next, latency, workerNow);
    var row := w.db.deliveries[key.delivery];
    if row.status == InProgress {
      assert w'.db.deliveries[key.delivery] == Moved(row, NextStatus(copy, result), next.GetOr(w.now), w.now);
    }
  }

  lemma ReportKeepsInv(w: World, a: Action)
    requires Inv(w) && a.Report? && Enabled(w, a)
    ensures Inv(Apply(w, a))
  {
    var w' := Apply(w, a);
    ReportIsAccepted(w, a.key, a.result, a.retryAt, a.latency, a.workerNow);
    ReportEffectKeepsInv(w, w', a.key, a.result);
  }

  lemma ReportEffectKeepsInv(w: World, w': World, key: AttemptKey, result: ResultStatus)
    requires Inv(w) && key in w.inFlight && key.delivery in w.db.deliveries && ReportEffect(w, w', key, result)
    ensures Inv(w')
  {
    ReportKeepsRows(w, w', key, result);
    ReportConserves(w, w', key, result);
    ReportKeepsJustified(w, w', key, result);
  }

  lemma ReportKeepsRows(w: World, w': World, key: AttemptKey, result: ResultStatus)
    requires Shaped(w) && OneOriginal(w.db.deliveries)
    requires key in w.inFlight && key.delivery in w.db.deliveries && ReportEffect(w, w', key, result)
    ensures Shaped(w') && OneOriginal(w'.db.deliveries)
    ensures forall id :: id in w'.db.deliveries <==> id in w.db.deliveries
    ensures forall id :: id in w.db.deliveries ==>
              OrderOf(w'.db.deliveries[id]) == OrderOf(w.db.deliveries[id])
              && w'.db.deliveries[id].attemptCount == w.db.deliveries[id].attemptCount
  {
    var row, row' := w.db.deliveries[key.delivery], w'.db.deliveries[key.delivery];
    assert row'.id == row.id && OrderOf(row') == OrderOf(row) && row'.attemptCount == row.attemptCount && row'.replayOf == row.replayOf;
    assert RowShape(row) && RowShape(row');
    RowSwapKeepsOriginals(w.db.deliveries, key.delivery, row');
  }

  lemma RowSwapKeepsOriginals(deliveries: map<Uuid, Delivery>, id: Uuid, row: Delivery)
    requires OneOriginal(deliveries) && id in deliveries
    requires row.replayOf == deliveries[id].replayOf && OrderOf(row) == OrderOf(deliveries[id])
    ensures OneOriginal(deliveries[id := row])
  {
  }

  lemma ReportConserves(w: World, w': World, key: AttemptKey, result: ResultStatus)
    requires Inv(w) && key in w.inFlight && key.delivery in w.db.deliveries && ReportEffect(w, w', key, result)
    ensures Conserved(w') && CopiesAgree(w')
  {
    ReportKeepsRows(w, w', key, result);
    assert forall k :: Counted(w', k) <==> Counted(w, k);
    assert forall k :: k in w'.db.attempts <==> k in w.db.attempts || k == key;
    assert forall k :: k in w'.inFlight <==> k in w.inFlight && k != key;
  }

  lemma ReportKeepsJustified(w: World, w': World, key: AttemptKey, result: ResultStatus)
    requires Inv(w) && key in w.inFlight && key.delivery in w.db.deliveries && ReportEffect(w, w', key, result)
    ensures Justified(w')
  {
    assert CopyKey(w.inFlight[key]) == key;
    forall id | id in w'.db.deliveries && (Final(w'.db.deliveries[id].status) || w'.db.deliveries[id].status == Retrying)
      ensures Backed(w', w'.db.deliveries[id])
    {
      if id == key.delivery && w.db.deliveries[id].status == InProgress {
        assert OrderOf(w.inFlight[key]) == OrderOf(w.db.deliveries[id]);
        assert Backs(w'.db.deliveries[id], key, w'.db.attempts[key]);
      } else {
        BackedStays(w, w', w.db.deliveries[id]);
      }
    }
  }

  lemma OtherStepsKeepInv(w: World, a: Action)
    requires Inv(w) && (a.Lose? || a.ReadReplay? || a.WriteReplay?) && Enabled(w, a)
    ensures Inv(Apply(w, a))
  {
    if a.WriteReplay? {
      NewRowKeepsInv(w, Apply(w, a), a.newId);
    } else {
      JustifiedStays(w, Apply(w, a));
      assert forall key :: Counted(Apply(w, a), key) <==> Counted(w, key);
    }
  }

  /** One more pending row that is not a second original. */
  lemma NewRowKeepsInv(w: World, w': World, id: Uuid)
    requires Inv(w) && id !in w.db.deliveries && id in w'.db.deliveries
    requires w' == w.(db := w.db.(deliveries := w.db.deliveries[id := w'.db.deliveries[id]]))
    requires var d := w'.db.deliveries[id];
             d.id == id && RowShape(d) && d.status == Pending && (d.replayOf.None? ==> !HasOriginal(w.db.deliveries, d.eventId, d.endpointId))
    ensures Inv(w')
  {
    JustifiedStays(w, w');
    NewRowConserves(w, w', id);
  }

  lemma NewRowConserves(w: World, w': World, id: Uuid)
    requires Conserved(w) && CopiesAgree(w) && id !in w.db.deliveries && id in w'.db.deliveries
    requires w' == w.(db := w.db.(deliveries := w.db.deliveries[id := w'.db.deliveries[id]]))
    requires w'.db.deliveries[id].attemptCount == 0
    ensures Conserved(w') && CopiesAgree(w')
  {
    assert forall key :: Counted(w', key) <==> Counted(w, key);
  }

  lemma StepKeepsInv(w: World, a: Action)
    requires Inv(w) && Enabled(w, a)
    ensures Inv(Apply(w, a))
  {
    if a.Advance? {
      AdvanceKeepsInv(w, a);
    } else if a.Accept? {
      AcceptKeepsInv(w, a);
    } else if a.Claim? {
      ClaimKeepsInv(w, a);
    } else if a.Report? {
      ReportKeepsInv(w, a);
    } else {
      OtherStepsKeepInv(w, a);
    }
  }

  lemma {:induction false} InvAlways(ws: seq<World>, acts: seq<Action>, i: nat)
    requires Run(ws, acts) && i < |ws|
    ensures Inv(ws[i])
  {
    if i > 0 {
      InvAlways(ws, acts, i - 1);
      StepKeepsInv(ws[i - 1], acts[i - 1]);
    }
  }
}
