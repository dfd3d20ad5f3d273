/** The backoff and the delivery rows together: how long a delivery is put off in all, in any run in which the workers ask
    the backoff for their retry times. */
module RetryWaits {
  import opened Basics
  import opened DeliveryModel
  import opened DeliveryTables
  import opened DeliverySystem
  import opened DeliveryOutcomes
  import opened AttemptBudgets
  import B = Backoff

  function PolicyOf(r: RetryPolicy): B.Policy {
    B.Policy(r.backoffType, r.initialDelayMs, r.maxDelayMs, r.jitterPercent)
  }

  /** The report puts its delivery off: the row moves to RETRYING. */
  ghost predicate PutsOff(w: World, a: Action, id: Uuid) {
    && a.Report? && a.key in w.inFlight && a.key.delivery == id && id in w.db.deliveries
    && w.db.deliveries[id].status == InProgress && NextStatus(w.inFlight[a.key], a.result) == Retrying
  }

  /** The worker asked the backoff for its retry time, with the copy's policy and attempt number and some random draw, no later
      than it recorded the attempt. */
  ghost predicate BackedOff(w: World, a: Action) {
    a.Report? && a.key in w.inFlight && NextStatus(w.inFlight[a.key], a.result) == Retrying ==>
      exists draw: real :: 0.0 <= draw < 1.0
        && a.retryAt <= a.workerNow + B.Delay(PolicyOf(w.inFlight[a.key].snapshot.retryPolicy), w.inFlight[a.key].attemptCount, draw)
  }

  /** From when the attempt was recorded to when the next is due. */
  ghost function PutOffBy(w: World, a: Action, id: Uuid): Time {
    if PutsOff(w, a, id) then a.retryAt - a.workerNow else 0
  }

  ghost function Waited(ws: seq<World>, acts: seq<Action>, i: nat, id: Uuid): Time
    requires Run(ws, acts) && i < |ws|
  {
    if i == 0 then 0 else Waited(ws, acts, i - 1, id) + PutOffBy(ws[i - 1], acts[i - 1], id)
  }

  /** How often it was put off. */
  ghost function TimesPutOff(ws: seq<World>, acts: seq<Action>, i: nat, id: Uuid): nat
    requires Run(ws, acts) && i < |ws|
  {
    if i == 0 then 0 else TimesPutOff(ws, acts, i - 1, id) + One(PutsOff(ws[i - 1], acts[i - 1], id))
  }

  lemma PutOffByOneDelay(w: World, a: Action, id: Uuid, p: B.Policy)
    requires Inv(w) && Enabled(w, a) && BackedOff(w, a) && B.WithinLimits(p)
    requires id in w.db.deliveries ==> PolicyOf(w.db.deliveries[id].snapshot.retryPolicy) == p
    ensures PutOffBy(w, a, id) <= if PutsOff(w, a, id) then B.MostDelay(p) else 0
  {
    if PutsOff(w, a, id) {
      var copy := w.inFlight[a.key];
      assert OrderOf(copy) == OrderOf(w.db.deliveries[id]);
      var draw: real :| 0.0 <= draw < 1.0 && a.retryAt <= a.workerNow + B.Delay(PolicyOf(copy.snapshot.retryPolicy), copy.attemptCount, draw);
      B.OneDelayIsBounded(p, copy.attemptCount, draw);
    }
  }

  lemma PutOffOnce(w: World, a: Action, id: Uuid)
    requires Inv(w) && Budgeted(w) && Enabled(w, a)
    ensures |Of(Apply(w, a).seen.movers, id)| == |Of(w.seen.movers, id)| + One(PutsOff(w, a, id))
  {
    if a.Report? {
      ReportIsAccepted(w, a.key, a.result, a.retryAt, a.latency, a.workerNow);
      MoverIsNew(w, Apply(w, a), a.key, a.result, id);
    }
  }

  lemma MoverIsNew(w: World, w': World, key: AttemptKey, result: ResultStatus, id: Uuid)
    requires Budgeted(w) && key in w.inFlight && key.delivery in w.db.deliveries && ReportEffect(w, w', key, result)
    ensures |Of(w'.seen.movers, id)| == |Of(w.seen.movers, id)|
              + One(key.delivery == id && w.db.deliveries[id].status == InProgress && NextStatus(w.inFlight[key], result) == Retrying)
  {
    assert key !in w.seen.movers;
    if w.db.deliveries[key.delivery].status == InProgress && NextStatus(w.inFlight[key], result) == Retrying {
      OneMoreKey(w.seen.movers, key, id);
    } else {
      assert w'.seen.movers == w.seen.movers;
    }
  }

  lemma OneMoreKey(keys: set<AttemptKey>, key: AttemptKey, id: Uuid)
    requires key !in keys
    ensures |Of(keys + {key}, id)| == |Of(keys, id)| + One(key.delivery == id)
  {
    if key.delivery == id {
      assert Of(keys + {key}, id) == Of(keys, id) + {key};
    } else {
      assert Of(keys + {key}, id) == Of(keys, id);
    }
  }

  lemma {:induction false} PutOffIsCounted(ws: seq<World>, acts: seq<Action>, i: nat, id: Uuid)
    requires Run(ws, acts) && i < |ws|
    ensures TimesPutOff(ws, acts, i, id) == |Of(ws[i].seen.movers, id)|
  {
    if i == 0 {
      assert Of(ws[0].seen.movers, id) == {};
    } else {
      PutOffIsCounted(ws, acts, i - 1, id);
      InvAlways(ws, acts, i - 1);
      BudgetAlways(ws, acts, i - 1);
      PutOffOnce(ws[i - 1], acts[i - 1], id);
    }
  }

  lemma {:induction false} WaitsAddUp(ws: seq<World>, acts: seq<Action>, i: nat, j: nat, id: Uuid, p: B.Policy)
    requires Run(ws, acts) && i <= j < |ws| && id in ws[j].db.deliveries && PolicyOf(ws[j].db.deliveries[id].snapshot.retryPolicy) == p
    requires B.WithinLimits(p) && forall k :: 0 <= k < j ==> BackedOff(ws[k], acts[k])
    ensures Waited(ws, acts, i, id) <= TimesPutOff(ws, acts, i, id) * B.MostDelay(p)
  {
    if i > 0 {
      WaitsAddUp(ws, acts, i - 1, j, id, p);
      OneWaitInARun(ws, acts, i - 1, j, id, p);
      OneMoreWait(Waited(ws, acts, i - 1, id), PutOffBy(ws[i - 1], acts[i - 1], id),
                  TimesPutOff(ws, acts, i - 1, id), PutsOff(ws[i - 1], acts[i - 1], id), B.MostDelay(p));
    }
  }

  lemma OneWaitInARun(ws: seq<World>, acts: seq<Action>, i: nat, j: nat, id: Uuid, p: B.Policy)
    requires Run(ws, acts) && i < j < |ws| && id in ws[j].db.deliveries && PolicyOf(ws[j].db.deliveries[id].snapshot.retryPolicy) == p
    requires B.WithinLimits(p) && BackedOff(ws[i], acts[i])
    ensures PutOffBy(ws[i], acts[i], id) <= if PutsOff(ws[i], acts[i], id) then B.MostDelay(p) else 0
  {
    InvAlways(ws, acts, i);
    if id in ws[i].db.deliveries {
      OrderNeverChanges(ws, acts, i, j, id);
    }
    PutOffByOneDelay(ws[i], acts[i], id, p);
  }

  lemma OneMoreWait(waited: int, wait: int, times: nat, more: bool, longest: int)
    requires waited <= times * longest && wait <= if more then longest else 0
    ensures waited + wait <= (times + One(more)) * longest
  {
    B.OneMoreCap(times, longest);
  }

  /** In every run, with any takeovers and late results, a delivery whose policy is within the table's limits is put off at most
      max(1, max_attempts) − 1 times, and in all by at most that many times the cap and the jitter's share of it. */
  lemma TotalWaitIsBounded(ws: seq<World>, acts: seq<Action>, i: nat, id: Uuid)
    requires Run(ws, acts) && i < |ws| && id in ws[i].db.deliveries
    requires B.WithinLimits(PolicyOf(ws[i].db.deliveries[id].snapshot.retryPolicy)) && forall k :: 0 <= k < i ==> BackedOff(ws[k], acts[k])
    ensures var d := ws[i].db.deliveries[id];
            var retries := if d.snapshot.retryPolicy.maxAttempts > 1 then d.snapshot.retryPolicy.maxAttempts - 1 else 0;
            && TimesPutOff(ws, acts, i, id) <= retries
            && Waited(ws, acts, i, id) <= retries * B.MostDelay(PolicyOf(d.snapshot.retryPolicy))
  {
    var d := ws[i].db.deliveries[id];
    var p := PolicyOf(d.snapshot.retryPolicy);
    BudgetAlways(ws, acts, i);
    PutOffIsCounted(ws, acts, i, id);
    MoversAreFew(ws[i], id);
    WaitsAddUp(ws, acts, i, i, id, p);
    B.OneDelayIsBounded(p, 1, 0.0);
    AllWaitsWithin(Waited(ws, acts, i, id), TimesPutOff(ws, acts, i, id), AttemptBudget(d) - 1, B.MostDelay(p));
  }

  lemma AllWaitsWithin(waited: int, times: nat, most: nat, longest: nat)
    requires waited <= times * longest && times <= most
    ensures waited <= most * longest
  {
    B.ScaleGrows(longest, times, most);
    assert longest * most == most * longest && longest * times == times * longest;
  }
}
