/** Fairness of claiming: which rows can be served before one that is past due, and when that set can grow. */
module ClaimFairness {
  import opened Basics
  import opened DeliveryModel
  import opened DeliveryTables
  import opened DeliverySystem
  import opened ClaimQuery

  predicate PastDue(w: World, id: Uuid) {
    id in w.db.deliveries && w.db.deliveries[id].nextAttemptAt < w.now
  }

  /** The deliveries that are not final and sort no later than `id`. */
  ghost function Ahead(w: World, id: Uuid): set<Uuid>
    requires id in w.db.deliveries
  {
    set x | x in w.db.deliveries && x != id && !Final(w.db.deliveries[x].status)
            && NotAfter(w.db.deliveries[x], w.db.deliveries[id])
  }

  /** A claim that passes over an eligible, unlocked delivery is full, and everything it takes was ahead. */
  lemma PassedOverOnlyByRowsAhead(w: World, a: Action, id: Uuid)
    requires a.Claim? && Enabled(w, a)
    requires id in w.db.deliveries && Eligible(w.db.deliveries[id], w.now) && id !in a.locked && id !in a.rows
    ensures |a.rows| == a.limit && forall r :: r in a.rows ==> r in Ahead(w, id)
  {
    ClaimTakesTheLeast(w.db.deliveries, a.locked, w.now, a.limit, a.rows);
  }

  /** The one way to be overtaken: a report puts its row back into the queue, at a retry time that sorts no later than
      delivery `id`, when the row sorted after it so far. */
  ghost predicate Overtakes(w: World, a: Action, id: Uuid) {
    && a.Report? && a.key in w.inFlight && a.key.delivery in w.db.deliveries && id in w.db.deliveries && a.key.delivery != id
    && (var row, d := w.db.deliveries[a.key.delivery], w.db.deliveries[id];
        && row.status == InProgress && NextStatus(w.inFlight[a.key], a.result) == Retrying
        && NotAfter(row.(nextAttemptAt := a.retryAt), d) && !NotAfter(row, d))
  }

  /** A report that moves its row to RETRYING at a time before both the clock and the row's present place in the queue.
      Only a worker that worked out its retry time long before it committed, and lost the lease meanwhile, does this. */
  ghost predicate Backdates(w: World, a: Action) {
    && a.Report? && a.key in w.inFlight && a.key.delivery in w.db.deliveries
    && w.db.deliveries[a.key.delivery].status == InProgress
    && NextStatus(w.inFlight[a.key], a.result) == Retrying
    && a.retryAt < w.now && a.retryAt < w.db.deliveries[a.key.delivery].nextAttemptAt
  }

  /** To overtake a delivery that is past due, a report must be backdated. */
  lemma OvertakingIsBackdating(w: World, a: Action, id: Uuid)
    requires PastDue(w, id) && Overtakes(w, a, id)
    ensures Backdates(w, a)
  {
  }

  /** The exact limit of fairness: a step puts something ahead of a delivery that is past due, and keeps its place, if and
      only if it is a report that overtakes it; and then it puts exactly the reported row ahead. New deliveries, replays,
      claims, expired leases and all other reports put nothing ahead. */
  lemma OvertakenExactly(w: World, a: Action, id: Uuid)
    requires Inv(w) && Enabled(w, a) && PastDue(w, id)
    requires id in Apply(w, a).db.deliveries && Apply(w, a).db.deliveries[id].nextAttemptAt == w.db.deliveries[id].nextAttemptAt
    ensures !(Ahead(Apply(w, a), id) <= Ahead(w, id)) <==> Overtakes(w, a, id)
    ensures Overtakes(w, a, id) ==> Ahead(Apply(w, a), id) - Ahead(w, id) == {a.key.delivery}
  {
    if a.Accept? {
      ArrivalsOvertakeNothing(w, a, id);
    } else if a.Claim? {
      ClaimsOvertakeNothing(w, a, id);
    } else if a.Report? {
      ReportOvertakes(w, a, id);
    }
  }

  lemma ClaimsOvertakeNothing(w: World, a: Action, id: Uuid)
    requires a.Claim? && Enabled(w, a) && PastDue(w, id)
    ensures id in Apply(w, a).db.deliveries && Ahead(Apply(w, a), id) <= Ahead(w, id)
  {
    var after := Apply(w, a).db.deliveries;
    forall x | x in Ahead(Apply(w, a), id)
      ensures x in Ahead(w, id)
    {
      assert after[x].status == w.db.deliveries[x].status || !Final(w.db.deliveries[x].status);
    }
  }

  lemma ArrivalsOvertakeNothing(w: World, a: Action, id: Uuid)
    requires a.Accept? && Enabled(w, a) && PastDue(w, id)
    ensures id in Apply(w, a).db.deliveries && Ahead(Apply(w, a), id) <= Ahead(w, id)
  {
    FanOutAdds(w.db.deliveries, a.event, a.eps, a.ids, w.now);
  }

  lemma ReportOvertakes(w: World, a: Action, id: Uuid)
    requires Inv(w) && a.Report? && Enabled(w, a) && id in w.db.deliveries
    requires id in Apply(w, a).db.deliveries && Apply(w, a).db.deliveries[id].nextAttemptAt == w.db.deliveries[id].nextAttemptAt
    ensures !(Ahead(Apply(w, a), id) <= Ahead(w, id)) <==> Overtakes(w, a, id)
    ensures Overtakes(w, a, id) ==> Ahead(Apply(w, a), id) - Ahead(w, id) == {a.key.delivery}
  {
    ReportIsAccepted(w, a.key, a.result, a.retryAt, a.latency, a.workerNow);
    ReportRequeuesAt(w, a);
    var retried := w.db.deliveries[a.key.delivery].status == InProgress && NextStatus(w.inFlight[a.key], a.result) == Retrying;
    RequeueOvertakes(w, Apply(w, a), a.key.delivery, id, retried, a.retryAt);
  }

  lemma RequeueOvertakes(w: World, w': World, moved: Uuid, id: Uuid, retried: bool, retryAt: Time)
    requires moved in w.db.deliveries && moved in w'.db.deliveries && id in w.db.deliveries
    requires w'.db.deliveries == w.db.deliveries[moved := w'.db.deliveries[moved]]
    requires w'.db.deliveries[id].nextAttemptAt == w.db.deliveries[id].nextAttemptAt
    requires w'.db.deliveries[moved].createdAt == w.db.deliveries[moved].createdAt
    requires var row, row' := w.db.deliveries[moved], w'.db.deliveries[moved];
             if retried then row.status == InProgress && row'.status == Retrying && row'.nextAttemptAt == retryAt
             else row'.nextAttemptAt == row.nextAttemptAt && (Final(row.status) ==> Final(row'.status))
    ensures var row, d := w.db.deliveries[moved], w.db.deliveries[id];
            var overtakes := moved != id && retried && NotAfter(row.(nextAttemptAt := retryAt), d) && !NotAfter(row, d);
            && (!(Ahead(w', id) <= Ahead(w, id)) <==> overtakes)
            && (overtakes ==> Ahead(w', id) - Ahead(w, id) == {moved})
  {
    OneRowMoves(w, w', moved, id);
    assert moved != id ==> w'.db.deliveries[id] == w.db.deliveries[id];
    if GetsAhead(w, w', moved, id) && moved != id {
      assert moved in Ahead(w', id) && moved !in Ahead(w, id);
    }
  }

  /** When one row moves in the queue, only that row can get ahead of another, and does exactly if it now sorts no later, is
      not final, and sorted later or was final before. */
  lemma OneRowMoves(w: World, w': World, moved: Uuid, id: Uuid)
    requires moved in w.db.deliveries && moved in w'.db.deliveries && id in w.db.deliveries
    requires w'.db.deliveries == w.db.deliveries[moved := w'.db.deliveries[moved]]
    requires w'.db.deliveries[id].nextAttemptAt == w.db.deliveries[id].nextAttemptAt
    requires w'.db.deliveries[moved].createdAt == w.db.deliveries[moved].createdAt
    ensures forall x :: x in Ahead(w', id) && x !in Ahead(w, id) <==> x == moved && moved != id && GetsAhead(w, w', moved, id)
  {
  }

  ghost predicate GetsAhead(w: World, w': World, moved: Uuid, id: Uuid)
    requires moved in w.db.deliveries && moved in w'.db.deliveries && id in w.db.deliveries && id in w'.db.deliveries
  {
    && !Final(w'.db.deliveries[moved].status) && NotAfter(w'.db.deliveries[moved], w'.db.deliveries[id])
    && (Final(w.db.deliveries[moved].status) || !NotAfter(w.db.deliveries[moved], w.db.deliveries[id]))
  }

  /** Where a report leaves its row in the queue. */
  lemma ReportRequeuesAt(w: World, a: Action)
    requires Inv(w) && a.Report? && Enabled(w, a)
    ensures var row, row' := w.db.deliveries[a.key.delivery], Apply(w, a).db.deliveries[a.key.delivery];
            && row'.createdAt == row.createdAt
            && (Final(row.status) ==> Final(row'.status))
            && (if row.status == InProgress && NextStatus(w.inFlight[a.key], a.result) == Retrying
                then row'.status == Retrying && row'.nextAttemptAt == a.retryAt
                else row'.nextAttemptAt == row.nextAttemptAt)
  {
    assert CopyKey(w.inFlight[a.key]) == a.key;
  }

  /** New deliveries, replays, claims of expired leases and retries that are not backdated put nothing ahead of any
      delivery that is past due. */
  lemma NothingOvertakes(w: World, a: Action, id: Uuid)
    requires Inv(w) && Enabled(w, a) && !Backdates(w, a) && PastDue(w, id)
    requires id in Apply(w, a).db.deliveries && Apply(w, a).db.deliveries[id].nextAttemptAt == w.db.deliveries[id].nextAttemptAt
    ensures Ahead(Apply(w, a), id) <= Ahead(w, id)
  {
    OvertakenExactly(w, a, id);
    if Overtakes(w, a, id) {
      OvertakingIsBackdating(w, a, id);
    }
  }

  lemma TimeGoesOn(w: World, a: Action)
    requires Inv(w) && Enabled(w, a)
    ensures Apply(w, a).now >= w.now
  {
    if a.Report? {
      ReportIsAccepted(w, a.key, a.result, a.retryAt, a.latency, a.workerNow);
    }
  }

  lemma TimeGoesOnInRuns(ws: seq<World>, acts: seq<Action>, k: nat)
    requires Run(ws, acts) && k < |acts|
    ensures ws[k].now <= ws[k + 1].now
  {
    InvAlways(ws, acts, k);
    TimeGoesOn(ws[k], acts[k]);
  }

  /** Delivery `id` is past due at step `i` and keeps its place in the queue up to step `j`. */
  ghost predicate Waits(ws: seq<World>, i: nat, j: nat, id: Uuid)
    requires i <= j < |ws|
  {
    PastDue(ws[i], id)
    && forall k :: i <= k <= j ==> id in ws[k].db.deliveries && ws[k].db.deliveries[id].nextAttemptAt == ws[i].db.deliveries[id].nextAttemptAt
  }

  lemma {:induction false} StaysPastDue(ws: seq<World>, acts: seq<Action>, i: nat, j: nat, k: nat, id: Uuid)
    requires Run(ws, acts) && i <= k <= j < |ws| && Waits(ws, i, j, id)
    ensures PastDue(ws[k], id)
    decreases k
  {
    if i < k {
      StaysPastDue(ws, acts, i, j, k - 1, id);
      TimeGoesOnInRuns(ws, acts, k - 1);
    }
  }

  /** Step `k` puts nothing ahead of `id`. */
  ghost predicate NoLarger(ws: seq<World>, k: nat, id: Uuid)
    requires k + 1 < |ws|
  {
    id in ws[k].db.deliveries && id in ws[k + 1].db.deliveries && Ahead(ws[k + 1], id) <= Ahead(ws[k], id)
  }

  /** Over any stretch of any run, no step puts anything ahead of a waiting delivery if and only if none overtakes it. */
  lemma NeverOvertakenExactly(ws: seq<World>, acts: seq<Action>, i: nat, j: nat, id: Uuid)
    requires Run(ws, acts) && i <= j < |ws| && Waits(ws, i, j, id)
    ensures (forall k :: i <= k < j ==> NoLarger(ws, k, id)) <==> (forall k :: i <= k < j ==> !Overtakes(ws[k], acts[k], id))
  {
    forall k | i <= k < j
      ensures NoLarger(ws, k, id) <==> !Overtakes(ws[k], acts[k], id)
    {
      StepOfWaiting(ws, acts, i, j, k, id);
    }
    if forall k :: i <= k < j ==> NoLarger(ws, k, id) {
      assert forall k :: i <= k < j ==> !Overtakes(ws[k], acts[k], id);
    }
  }

  lemma StepOfWaiting(ws: seq<World>, acts: seq<Action>, i: nat, j: nat, k: nat, id: Uuid)
    requires Run(ws, acts) && i <= k < j < |ws| && Waits(ws, i, j, id)
    ensures NoLarger(ws, k, id) <==> !Overtakes(ws[k], acts[k], id)
  {
    StaysPastDue(ws, acts, i, j, k, id);
    InvAlways(ws, acts, k);
    assert ws[k + 1] == Apply(ws[k], acts[k]);
    OvertakenExactly(ws[k], acts[k], id);
  }

  /** So over any stretch in which nothing overtakes it the deliveries ahead of a waiting one only become fewer. */
  lemma {:induction false} NothingEverOvertakes(ws: seq<World>, acts: seq<Action>, i: nat, j: nat, id: Uuid)
    requires Run(ws, acts) && i <= j < |ws| && Waits(ws, i, j, id)
    requires forall k :: i <= k < j ==> !Overtakes(ws[k], acts[k], id)
    ensures Ahead(ws[j], id) <= Ahead(ws[i], id)
    decreases j
  {
    if i < j {
      NothingEverOvertakes(ws, acts, i, j - 1, id);
      StepOfWaiting(ws, acts, i, j, j - 1, id);
    }
  }
}
