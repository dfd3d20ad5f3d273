/** What every run of the delivery service keeps: rows are never lost or redirected, final states are absorbing and
    backed by a recorded attempt, and attempt numbers are conserved. */
module DeliveryOutcomes {
  import opened Basics
  import opened DeliveryModel
  import opened DeliveryTables
  import opened DeliverySystem

  /** The later tables keep everything the earlier ones promised. */
  ghost predicate Evolves(a: Tables, b: Tables) {
    && (forall key :: key in a.attempts ==> key in b.attempts && b.attempts[key] == a.attempts[key])
    && (forall id :: id in a.deliveries ==> id in b.deliveries && RowEvolves(a.deliveries[id], b.deliveries[id]))
  }

  ghost predicate RowEvolves(a: Delivery, b: Delivery) {
    && b.id == a.id && OrderOf(b) == OrderOf(a) && b.replayOf == a.replayOf && b.createdAt == a.createdAt
    && a.attemptCount <= b.attemptCount
    && (a.status != Pending ==> b.status != Pending)
    && (Final(a.status) ==> b == a)
  }

  lemma EvolvesComposes(a: Tables, b: Tables, c: Tables)
    requires Evolves(a, b) && Evolves(b, c)
    ensures Evolves(a, c)
  {
  }

  lemma AcceptEvolves(w: World, a: Action)
    requires a.Accept? && Enabled(w, a)
    ensures Evolves(w.db, Apply(w, a).db)
  {
    FanOutAdds(w.db.deliveries, a.event, a.eps, a.ids, w.now);
  }

  lemma ClaimEvolves(w: World, a: Action)
    requires Shaped(w) && a.Claim? && Enabled(w, a)
    ensures Evolves(w.db, Apply(w, a).db)
  {
  }

  lemma ReportEvolves(w: World, a: Action)
    requires Inv(w) && a.Report? && Enabled(w, a)
    ensures Evolves(w.db, Apply(w, a).db)
  {
    ReportIsAccepted(w, a.key, a.result, a.retryAt, a.latency, a.workerNow);
    RowMoveEvolves(w, Apply(w, a), a.key, a.result);
  }

  lemma RowMoveEvolves(w: World, w': World, key: AttemptKey, result: ResultStatus)
    requires key in w.inFlight && key.delivery in w.db.deliveries && ReportEffect(w, w', key, result)
    ensures Evolves(w.db, w'.db)
  {
    assert RowEvolves(w.db.deliveries[key.delivery], w'.db.deliveries[key.delivery]);
  }

  lemma StepEvolves(w: World, a: Action)
    requires Inv(w) && Enabled(w, a)
    ensures Evolves(w.db, Apply(w, a).db)
  {
    if a.Accept? {
      AcceptEvolves(w, a);
    } else if a.Report? {
      ReportEvolves(w, a);
    } else if a.Claim? {
      ClaimEvolves(w, a);
    }
  }

  lemma {:induction false} RunEvolves(ws: seq<World>, acts: seq<Action>, i: nat, j: nat)
    requires Run(ws, acts) && i <= j < |ws|
    ensures Evolves(ws[i].db, ws[j].db)
    decreases j
  {
    if i < j {
      RunEvolves(ws, acts, i, j - 1);
      InvAlways(ws, acts, j - 1);
      StepEvolves(ws[j - 1], acts[j - 1]);
      EvolvesComposes(ws[i].db, ws[j - 1].db, ws[j].db);
    }
  }

  /** Snapshot stability: nothing that happens after a delivery exists changes what is sent or where. */
  lemma OrderNeverChanges(ws: seq<World>, acts: seq<Action>, i: nat, j: nat, id: Uuid)
    requires Run(ws, acts) && i <= j < |ws| && id in ws[i].db.deliveries
    ensures id in ws[j].db.deliveries && OrderOf(ws[j].db.deliveries[id]) == OrderOf(ws[i].db.deliveries[id])
  {
    RunEvolves(ws, acts, i, j);
  }

  /** What Get finds: the delivery, for its own tenant. */
  function Found(db: Tables, tenantId: Uuid, id: Uuid): Option<Delivery> {
    if id in db.deliveries && db.deliveries[id].tenantId == tenantId then Some(db.deliveries[id]) else None
  }

  /** Once a delivery exists its own tenant finds it for ever, with the order it was created with, and no other tenant ever
      finds it. */
  lemma OnlyItsTenantFindsIt(ws: seq<World>, acts: seq<Action>, i: nat, j: nat, id: Uuid, tenantId: Uuid)
    requires Run(ws, acts) && i <= j < |ws| && id in ws[i].db.deliveries
    ensures var found := Found(ws[j].db, tenantId, id);
            && (found.Some? <==> tenantId == ws[i].db.deliveries[id].tenantId)
            && (found.Some? ==> found.value.id == id && OrderOf(found.value) == OrderOf(ws[i].db.deliveries[id]))
  {
    InvAlways(ws, acts, i);
    RunEvolves(ws, acts, i, j);
  }

  /** DELIVERED, FAILED and DLQ are never left, whatever late results arrive: the row stays as it is. */
  lemma FinalIsAbsorbing(ws: seq<World>, acts: seq<Action>, i: nat, j: nat, id: Uuid)
    requires Run(ws, acts) && i <= j < |ws| && id in ws[i].db.deliveries
    requires Final(ws[i].db.deliveries[id].status)
    ensures id in ws[j].db.deliveries && ws[j].db.deliveries[id] == ws[i].db.deliveries[id]
  {
    RunEvolves(ws, acts, i, j);
  }

  /** A final state has a reason on record: DELIVERED a success, FAILED a permanent failure, DLQ a retryable failure
      numbered at least max_attempts. A lease exists exactly while IN_PROGRESS, a completion time exactly in the final
      states, and nothing is ever CANCELLED. */
  lemma FinalIsJustified(ws: seq<World>, acts: seq<Action>, i: nat, id: Uuid)
    requires Run(ws, acts) && i < |ws| && id in ws[i].db.deliveries
    ensures var d, attempts := ws[i].db.deliveries[id], ws[i].db.attempts;
            && (d.status == Delivered ==> exists n :: AttemptKey(id, n) in attempts && attempts[AttemptKey(id, n)].status == Success)
            && (d.status == Failed ==> exists n :: AttemptKey(id, n) in attempts && attempts[AttemptKey(id, n)].status == PermanentFailure)
            && (d.status == Dlq ==> exists n :: n >= d.snapshot.retryPolicy.maxAttempts && AttemptKey(id, n) in attempts
                                              && attempts[AttemptKey(id, n)].status == RetryableFailure)
            && (d.leaseOwner.Some? <==> d.status == InProgress) && (d.leaseExpiresAt.Some? <==> d.status == InProgress)
            && (d.completedAt.Some? <==> Final(d.status))
            && d.status != Cancelled
  {
    InvAlways(ws, acts, i);
    var w := ws[i];
    var d := w.db.deliveries[id];
    if Final(d.status) {
      var key :| key in w.db.attempts && Backs(d, key, w.db.attempts[key]);
      assert key == AttemptKey(id, key.number);
    }
  }

  // ----- attempt conservation -----

  /** Recording a claim in flight never violates a constraint, in any reachable world. */
  lemma RecordingNeverFails(ws: seq<World>, acts: seq<Action>, i: nat, key: AttemptKey, result: ResultStatus,
                            retryAt: Time, latency: Time, workerNow: Time)
    requires Run(ws, acts) && i < |ws| && key in ws[i].inFlight
    ensures var w := ws[i]; var copy := w.inFlight[key];
            RecordAttempt(w.db, copy, result, RetryTime(copy, result, retryAt), latency, workerNow, w.now).Ok?
  {
    InvAlways(ws, acts, i);
    ReportIsAccepted(ws[i], key, result, retryAt, latency, workerNow);
  }

  lemma {:induction false} KeysUpTo(id: Uuid, n: nat, keys: set<AttemptKey>)
    requires forall key :: key in keys <==> key.delivery == id && 1 <= key.number <= n
    ensures |keys| == n
  {
    if n == 0 {
      assert keys == {};
    } else {
      var last := AttemptKey(id, n);
      KeysUpTo(id, n - 1, keys - {last});
      assert keys == (keys - {last}) + {last};
    }
  }

  /** The attempt numbers 1..attempt_count are split exactly, without overlap, into recorded attempts, claims in
      flight and claims lost. */
  lemma AttemptsAreConserved(ws: seq<World>, acts: seq<Action>, i: nat, id: Uuid)
    requires Run(ws, acts) && i < |ws| && id in ws[i].db.deliveries
    ensures var w := ws[i];
            var recorded, flying, lost := Of(w.db.attempts.Keys, id), Of(w.inFlight.Keys, id), Of(w.seen.lost, id);
            && recorded !! flying && flying !! lost && recorded !! lost
            && |recorded| + |flying| + |lost| == w.db.deliveries[id].attemptCount
            && (forall key :: key in recorded + flying + lost <==> key.delivery == id && 1 <= key.number <= w.db.deliveries[id].attemptCount)
  {
    InvAlways(ws, acts, i);
    var w := ws[i];
    var recorded, flying, lost := Of(w.db.attempts.Keys, id), Of(w.inFlight.Keys, id), Of(w.seen.lost, id);
    forall key: AttemptKey
      ensures key in recorded + flying + lost <==> key.delivery == id && 1 <= key.number <= w.db.deliveries[id].attemptCount
    {
      assert key.delivery == id ==> (Counted(w, key) <==> 1 <= key.number <= w.db.deliveries[id].attemptCount);
    }
    assert RowShape(w.db.deliveries[id]);
    KeysUpTo(id, w.db.deliveries[id].attemptCount, recorded + flying + lost);
    assert |recorded + flying + lost| == |recorded + flying| + |lost|;
  }

  /** A late success does not always end a delivery: recording moves the row exactly when it is IN_PROGRESS at that
      moment. Otherwise the attempt is on record and the row is untouched. */
  lemma RecordingMovesOnlyInProgress(w: World, key: AttemptKey, result: ResultStatus, retryAt: Time, latency: Time, workerNow: Time)
    requires Inv(w) && key in w.inFlight
    ensures var w' := Apply(w, Report(key, result, retryAt, latency, workerNow));
            && key in w'.db.attempts && w'.db.attempts[key].status == result
            && key.delivery in w'.db.deliveries
            && (w'.db.deliveries[key.delivery] != w.db.deliveries[key.delivery] <==> w.db.deliveries[key.delivery].status == InProgress)
            && (w.db.deliveries[key.delivery].status == InProgress ==>
                  w'.db.deliveries[key.delivery].status == NextStatus(w.inFlight[key], result))
  {
    ReportIsAccepted(w, key, result, retryAt, latency, workerNow);
    assert RowShape(w.db.deliveries[key.delivery]);
  }
}
