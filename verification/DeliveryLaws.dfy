/** What the steps of any run do to rows and attempts, written out field by field, without the functions that the
    transactions are made of. */
module DeliveryLaws {
  import opened Basics
  import opened DeliveryModel
  import opened DeliveryTables
  import opened DeliverySystem
  import opened DeliveryOutcomes

  // ----- claiming -----

  /** A delivery that waits and whose time has come, or that is in progress under a lease that has run out. */
  ghost predicate DueNow(d: Delivery, now: Time) {
    || ((d.status == Pending || d.status == Retrying) && d.nextAttemptAt <= now)
    || (d.status == InProgress && d.leaseExpiresAt.Some? && d.leaseExpiresAt.value < now)
  }

  /** A claim takes a delivery only when it is due: it waits and its time has come, or it is in progress under a lease that
      has run out. */
  lemma ClaimedOnlyWhenDue(ws: seq<World>, acts: seq<Action>, i: nat, id: Uuid)
    requires Run(ws, acts) && i < |acts| && acts[i].Claim? && id in acts[i].rows
    ensures id in ws[i].db.deliveries && id !in acts[i].locked
    ensures var d := ws[i].db.deliveries[id];
            || ((d.status == Pending || d.status == Retrying) && d.nextAttemptAt <= ws[i].now)
            || (d.status == InProgress && d.leaseExpiresAt.Some? && d.leaseExpiresAt.value < ws[i].now)
  {
    assert Enabled(ws[i], acts[i]);
  }

  /** And a claim with room takes every such delivery that is not locked. */
  lemma DueIsClaimed(ws: seq<World>, acts: seq<Action>, i: nat, id: Uuid)
    requires Run(ws, acts) && i < |acts| && acts[i].Claim? && |acts[i].rows| < acts[i].limit
    requires id in ws[i].db.deliveries && id !in acts[i].locked
    requires var d := ws[i].db.deliveries[id];
             || ((d.status == Pending || d.status == Retrying) && d.nextAttemptAt <= ws[i].now)
             || (d.status == InProgress && d.leaseExpiresAt.Some? && d.leaseExpiresAt.value < ws[i].now)
    ensures id in acts[i].rows
  {
    assert Enabled(ws[i], acts[i]);
  }

  /** Claims go by next_attempt_at, then by created_at: among the rows of a batch, and between them and the due, unlocked rows
      left behind, of which there are none unless the batch is full. */
  lemma ClaimsGoInOrder(ws: seq<World>, acts: seq<Action>, i: nat)
    requires Run(ws, acts) && i < |acts| && acts[i].Claim?
    ensures var rows, deliveries := acts[i].rows, ws[i].db.deliveries;
            && |rows| <= acts[i].limit && (forall r :: r in rows ==> r in deliveries)
            && (forall m, n :: 0 <= m < n < |rows| ==>
                  rows[m] != rows[n]
                  && (deliveries[rows[m]].nextAttemptAt < deliveries[rows[n]].nextAttemptAt
                      || (deliveries[rows[m]].nextAttemptAt == deliveries[rows[n]].nextAttemptAt
                          && deliveries[rows[m]].createdAt <= deliveries[rows[n]].createdAt)))
            && (forall id :: id in deliveries && id !in acts[i].locked && id !in rows && DueNow(deliveries[id], ws[i].now) ==> |rows| == acts[i].limit)
            && (forall id, r :: id in deliveries && id !in acts[i].locked && id !in rows && DueNow(deliveries[id], ws[i].now) && r in rows ==>
                  || deliveries[r].nextAttemptAt < deliveries[id].nextAttemptAt
                  || (deliveries[r].nextAttemptAt == deliveries[id].nextAttemptAt && deliveries[r].createdAt <= deliveries[id].createdAt))
  {
    var rows, deliveries := acts[i].rows, ws[i].db.deliveries;
    assert Enabled(ws[i], acts[i]);
    forall m, n | 0 <= m < n < |rows|
      ensures rows[m] in deliveries && rows[n] in deliveries && NotAfter(deliveries[rows[m]], deliveries[rows[n]])
    {
      assert rows[m] in rows && rows[n] in rows;
    }
    forall id, r | id in deliveries && id !in acts[i].locked && id !in rows && DueNow(deliveries[id], ws[i].now) && r in rows
      ensures NotAfter(deliveries[r], deliveries[id])
    {
      assert Eligible(deliveries[id], ws[i].now);
    }
  }

  // ----- how rows change -----

  /** What a claim by `worker` makes of a row. */
  ghost predicate BecomesLeased(d: Delivery, d': Delivery, worker: string, workerNow: Time, now: Time) {
    && d'.status == InProgress && d'.leaseOwner == Some(worker) && d'.leaseExpiresAt == Some(workerNow + 30_000_000_000)
    && d'.attemptCount == d.attemptCount + 1 && d'.lastAttemptAt == Some(workerNow) && d'.updatedAt == now
    && d'.nextAttemptAt == d.nextAttemptAt && d'.completedAt == d.completedAt
  }

  /** What the result of attempt `number` makes of a row in progress. */
  ghost predicate BecomesReported(d: Delivery, d': Delivery, number: int, result: ResultStatus, retryAt: Time, now: Time) {
    && d.status == InProgress
    && (result == Success ==> d'.status == Delivered)
    && (result == PermanentFailure ==> d'.status == Failed)
    && (result == RetryableFailure && number >= d.snapshot.retryPolicy.maxAttempts ==> d'.status == Dlq)
    && (result == RetryableFailure && number < d.snapshot.retryPolicy.maxAttempts ==> d'.status == Retrying)
    && d'.leaseOwner.None? && d'.leaseExpiresAt.None? && d'.updatedAt == now
    && d'.completedAt == (if d'.status == Retrying then None else Some(now))
    && d'.nextAttemptAt == (if d'.status == Retrying then retryAt else d.nextAttemptAt)
    && d'.attemptCount == d.attemptCount && d'.lastAttemptAt == d.lastAttemptAt
  }

  /** Every change of every row, in any run: it is claimed, and leased for thirty seconds from the worker's clock; or a result
      is recorded while it is in progress, and decides its status by the number of that attempt. Nothing else changes a row,
      these always do, and id, tenant, event, endpoint, payload, snapshot, link and creation time never change. */
  lemma EveryChangeOfARow(ws: seq<World>, acts: seq<Action>, i: nat, id: Uuid)
    requires Run(ws, acts) && i < |acts| && id in ws[i].db.deliveries
    ensures id in ws[i + 1].db.deliveries
    ensures var d, d', a := ws[i].db.deliveries[id], ws[i + 1].db.deliveries[id], acts[i];
            && d'.id == d.id == id && OrderOf(d') == OrderOf(d) && d'.replayOf == d.replayOf && d'.createdAt == d.createdAt
            && (if a.Claim? && id in a.rows then BecomesLeased(d, d', a.worker, a.workerNow, ws[i].now)
                else if a.Report? && a.key.delivery == id && d.status == InProgress
                then BecomesReported(d, d', a.key.number, a.result, a.retryAt, ws[i].now)
                else d' == d)
  {
    InvAlways(ws, acts, i);
    RowStep(ws[i], acts[i], id);
  }

  lemma RowStep(w: World, a: Action, id: Uuid)
    requires Inv(w) && Enabled(w, a) && id in w.db.deliveries
    ensures id in Apply(w, a).db.deliveries
    ensures var d, d' := w.db.deliveries[id], Apply(w, a).db.deliveries[id];
            && d'.id == d.id == id && OrderOf(d') == OrderOf(d) && d'.replayOf == d.replayOf && d'.createdAt == d.createdAt
            && (if a.Claim? && id in a.rows then BecomesLeased(d, d', a.worker, a.workerNow, w.now)
                else if a.Report? && a.key.delivery == id && d.status == InProgress
                then BecomesReported(d, d', a.key.number, a.result, a.retryAt, w.now)
                else d' == d)
  {
    assert w.db.deliveries[id].id == id;
    if a.Accept? {
      FanOutAdds(w.db.deliveries, a.event, a.eps, a.ids, w.now);
    } else if a.Claim? {
      ClaimStep(w, a, id);
    } else if a.Report? {
      ReportStep(w, a, id);
    }
  }

  lemma ClaimStep(w: World, a: Action, id: Uuid)
    requires Shaped(w) && a.Claim? && Enabled(w, a) && id in w.db.deliveries
    ensures id in Apply(w, a).db.deliveries
    ensures var d, d' := w.db.deliveries[id], Apply(w, a).db.deliveries[id];
            && d'.id == d.id && OrderOf(d') == OrderOf(d) && d'.replayOf == d.replayOf && d'.createdAt == d.createdAt
            && (if id in a.rows then BecomesLeased(d, d', a.worker, a.workerNow, w.now) else d' == d)
  {
  }

  lemma ReportStep(w: World, a: Action, id: Uuid)
    requires Inv(w) && a.Report? && Enabled(w, a) && id in w.db.deliveries
    ensures id in Apply(w, a).db.deliveries
    ensures var d, d' := w.db.deliveries[id], Apply(w, a).db.deliveries[id];
            && d'.id == d.id && OrderOf(d') == OrderOf(d) && d'.replayOf == d.replayOf && d'.createdAt == d.createdAt
            && (if a.key.delivery == id && d.status == InProgress
                then BecomesReported(d, d', a.key.number, a.result, a.retryAt, w.now)
                else d' == d)
  {
    assert CopyKey(w.inFlight[a.key]) == a.key;
    if a.key.delivery == id {
      assert OrderOf(w.inFlight[a.key]) == OrderOf(w.db.deliveries[id]);
    }
  }

  /** Every change is stamped with the time it was made, and completion with the time it was reached. */
  lemma EveryChangeIsStamped(ws: seq<World>, acts: seq<Action>, i: nat, id: Uuid)
    requires Run(ws, acts) && i < |acts| && id in ws[i].db.deliveries
    ensures id in ws[i + 1].db.deliveries
    ensures var d, d' := ws[i].db.deliveries[id], ws[i + 1].db.deliveries[id];
            && (d' != d ==> d'.updatedAt == ws[i].now)
            && (d'.status in {Delivered, Failed, Dlq} && d.status !in {Delivered, Failed, Dlq} ==> d'.completedAt == Some(ws[i].now))
  {
    EveryChangeOfARow(ws, acts, i, id);
  }

  /** Every new row starts pending, due at once, stamped with now, as an original or as a replay of an earlier row. */
  lemma EveryNewRow(ws: seq<World>, acts: seq<Action>, i: nat, id: Uuid)
    requires Run(ws, acts) && i < |acts| && id !in ws[i].db.deliveries && id in ws[i + 1].db.deliveries
    ensures var d, now := ws[i + 1].db.deliveries[id], ws[i].now;
            && d.id == id && d.status == Pending && d.attemptCount == 0 && d.createdAt == d.updatedAt == d.nextAttemptAt == now
            && d.lastAttemptAt.None? && d.leaseOwner.None? && d.leaseExpiresAt.None? && d.completedAt.None?
            && (acts[i].Accept? || acts[i].WriteReplay?) && (d.replayOf.Some? <==> acts[i].WriteReplay?)
  {
    InvAlways(ws, acts, i);
    var w, a := ws[i], acts[i];
    if a.Accept? {
      FanOutAdds(w.db.deliveries, a.event, a.eps, a.ids, w.now);
    } else if a.Report? {
      ReportIsAccepted(w, a.key, a.result, a.retryAt, a.latency, a.workerNow);
    }
  }

  // ----- retries wait -----

  ghost predicate Unclaimed(acts: seq<Action>, i: nat, j: nat, id: Uuid)
    requires j <= |acts|
  {
    forall k :: i <= k < j && acts[k].Claim? ==> id !in acts[k].rows
  }

  /** A row that is not in progress stays as it is until it is claimed. */
  lemma {:induction false} RowRests(ws: seq<World>, acts: seq<Action>, i: nat, j: nat, id: Uuid)
    requires Run(ws, acts) && i <= j < |ws| && id in ws[i].db.deliveries && ws[i].db.deliveries[id].status != InProgress
    requires Unclaimed(acts, i, j, id)
    ensures id in ws[j].db.deliveries && ws[j].db.deliveries[id] == ws[i].db.deliveries[id]
    decreases j
  {
    if i < j {
      RowRests(ws, acts, i, j - 1, id);
      EveryChangeOfARow(ws, acts, j - 1, id);
    }
  }

  /** The backoff takes effect: after a report has put a delivery off until `retryAt`, the next claim of it, by whoever, comes no
      earlier. */
  lemma RetriesWait(ws: seq<World>, acts: seq<Action>, i: nat, j: nat, id: Uuid)
    requires Run(ws, acts) && i < j < |acts| && acts[i].Report? && acts[i].key.delivery == id
    requires id in ws[i].db.deliveries && ws[i].db.deliveries[id].status == InProgress
    requires id in ws[i + 1].db.deliveries && ws[i + 1].db.deliveries[id].status == Retrying
    requires Unclaimed(acts, i + 1, j, id) && acts[j].Claim? && id in acts[j].rows
    ensures acts[i].retryAt <= ws[j].now
  {
    EveryChangeOfARow(ws, acts, i, id);
    RowRests(ws, acts, i + 1, j, id);
    ClaimedOnlyWhenDue(ws, acts, j, id);
  }

  // ----- attempts -----

  /** Step `c` claimed `key`: the worker's clock said `began`. */
  ghost predicate ClaimedAt(ws: seq<World>, acts: seq<Action>, c: nat, key: AttemptKey, began: Time)
    requires Run(ws, acts) && c < |acts|
  {
    && acts[c].Claim? && key.delivery in acts[c].rows && key.delivery in ws[c].db.deliveries
    && key.number == ws[c].db.deliveries[key.delivery].attemptCount + 1 && began == acts[c].workerNow
  }

  /** Every copy a worker holds was claimed at some step, began then, and carries what the row carried. */
  lemma {:induction false} CopiesWereClaimed(ws: seq<World>, acts: seq<Action>, i: nat, key: AttemptKey) returns (c: nat)
    requires Run(ws, acts) && i < |ws| && key in ws[i].inFlight
    ensures c < i && ws[i].inFlight[key].lastAttemptAt.Some? && ClaimedAt(ws, acts, c, key, ws[i].inFlight[key].lastAttemptAt.value)
  {
    assert i > 0;
    var began := ws[i].inFlight[key].lastAttemptAt;
    CopyComesFromClaim(ws, acts, i - 1, key);
    if key in ws[i - 1].inFlight {
      c := CopiesWereClaimed(ws, acts, i - 1, key);
      assert ws[i - 1].inFlight[key].lastAttemptAt == began;
    } else {
      c := i - 1;
    }
  }

  lemma CopyComesFromClaim(ws: seq<World>, acts: seq<Action>, k: nat, key: AttemptKey)
    requires Run(ws, acts) && k < |acts| && key in ws[k + 1].inFlight
    ensures var copy := ws[k + 1].inFlight[key];
            if key in ws[k].inFlight then copy == ws[k].inFlight[key]
            else copy.lastAttemptAt.Some? && ClaimedAt(ws, acts, k, key, copy.lastAttemptAt.value)
  {
    InvAlways(ws, acts, k);
    CopyStep(ws[k], acts[k], key);
  }

  lemma CopyStep(w: World, a: Action, key: AttemptKey)
    requires Inv(w) && Enabled(w, a) && key in Apply(w, a).inFlight
    ensures var copy := Apply(w, a).inFlight[key];
            if key in w.inFlight then copy == w.inFlight[key]
            else a.Claim? && key.delivery in a.rows && key.delivery in w.db.deliveries
                 && key.number == w.db.deliveries[key.delivery].attemptCount + 1 && copy.lastAttemptAt == Some(a.workerNow)
  {
    if a.Claim? {
      CopiesHas(w.db.deliveries, Elements(a.rows), a.workerNow, key);
      assert key in w.inFlight ==> Counted(w, key);
    } else if a.Report? {
      ReportIsAccepted(w, a.key, a.result, a.retryAt, a.latency, a.workerNow);
    }
  }

  /** Every new attempt: it is the one reported, with its result; it began when its number was claimed and completed when the
      worker recorded it. Attempts never change afterwards. */
  lemma EveryNewAttempt(ws: seq<World>, acts: seq<Action>, i: nat, key: AttemptKey) returns (c: nat)
    requires Run(ws, acts) && i < |acts| && key in ws[i + 1].db.attempts && key !in ws[i].db.attempts
    ensures acts[i].Report? && acts[i].key == key
    ensures ws[i + 1].db.attempts[key].status == acts[i].result && ws[i + 1].db.attempts[key].completedAt == acts[i].workerNow
    ensures c < i && ClaimedAt(ws, acts, c, key, ws[i + 1].db.attempts[key].startedAt)
  {
    InvAlways(ws, acts, i);
    AttemptStep(ws[i], acts[i], key);
    c := CopiesWereClaimed(ws, acts, i, key);
  }

  lemma AttemptStep(w: World, a: Action, key: AttemptKey)
    requires Inv(w) && Enabled(w, a) && key in Apply(w, a).db.attempts && key !in w.db.attempts
    ensures a.Report? && a.key == key && key in w.inFlight
    ensures var t := Apply(w, a).db.attempts[key];
            t.status == a.result && t.completedAt == a.workerNow && Some(t.startedAt) == w.inFlight[key].lastAttemptAt
  {
    if a.Report? {
      assert CopyKey(w.inFlight[a.key]) == a.key;
    }
  }
}
