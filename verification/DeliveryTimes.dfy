/** The clocks in a delivery's row and in its attempts, in every run. The database's clock only moves forward; the clocks of
    the workers may say anything. */
module DeliveryTimes {
  import opened Basics
  import opened DeliveryModel
  import opened DeliveryTables
  import opened DeliverySystem

  /** Rows are created before they are changed and changed before now; a delivery waits from its creation; a lease runs for
      its length from the last claim; and a final row was last changed when it was completed. */
  ghost predicate RowTimely(d: Delivery, now: Time) {
    && d.createdAt <= d.updatedAt <= now
    && (d.lastAttemptAt.Some? <==> d.status != Pending)
    && (d.status == Pending ==> d.nextAttemptAt == d.createdAt)
    && (d.status == InProgress ==> d.leaseExpiresAt == Some(d.lastAttemptAt.value + LEASE))
    && (Final(d.status) ==> d.completedAt == Some(d.updatedAt))
  }

  /** The latest claim of a delivery and, once recorded, its attempt began when the row says. */
  ghost predicate LatestBegan(w: World, id: Uuid)
    requires id in w.db.deliveries
  {
    var d := w.db.deliveries[id];
    var key := AttemptKey(id, d.attemptCount);
    && (key in w.inFlight ==> w.inFlight[key].lastAttemptAt == d.lastAttemptAt)
    && (key in w.db.attempts ==> Some(w.db.attempts[key].startedAt) == d.lastAttemptAt)
  }

  ghost predicate Timely(w: World) {
    forall id :: id in w.db.deliveries ==> RowTimely(w.db.deliveries[id], w.now) && LatestBegan(w, id)
  }

  lemma AcceptKeepsTimely(w: World, a: Action)
    requires Inv(w) && Timely(w) && a.Accept? && Enabled(w, a)
    ensures Timely(Apply(w, a))
  {
    FanOutAdds(w.db.deliveries, a.event, a.eps, a.ids, w.now);
    NewRowsAreTimely(w, Apply(w, a));
  }

  lemma NewRowsAreTimely(w: World, w': World)
    requires Conserved(w) && Timely(w)
    requires w'.now == w.now && w'.inFlight == w.inFlight && w'.db.attempts == w.db.attempts
    requires forall id :: id in w.db.deliveries ==> id in w'.db.deliveries && w'.db.deliveries[id] == w.db.deliveries[id]
    requires forall id :: id in w'.db.deliveries && id !in w.db.deliveries ==> RowTimely(w'.db.deliveries[id], w.now)
    ensures Timely(w')
  {
    forall id | id in w'.db.deliveries
      ensures RowTimely(w'.db.deliveries[id], w'.now) && LatestBegan(w', id)
    {
      if id in w.db.deliveries {
        assert LatestBegan(w, id);
      } else {
        assert forall n :: !Counted(w, AttemptKey(id, n));
      }
    }
  }

  lemma ClaimKeepsTimely(w: World, a: Action)
    requires Inv(w) && Timely(w) && a.Claim? && Enabled(w, a)
    ensures Timely(Apply(w, a))
  {
    forall id | id in w.db.deliveries
      ensures RowTimely(Apply(w, a).db.deliveries[id], w.now) && LatestBegan(Apply(w, a), id)
    {
      ClaimedRowTimely(w, a, id);
    }
  }

  lemma ClaimedRowTimely(w: World, a: Action, id: Uuid)
    requires Shaped(w) && Conserved(w) && a.Claim? && Enabled(w, a)
    requires id in w.db.deliveries && RowTimely(w.db.deliveries[id], w.now) && LatestBegan(w, id)
    ensures id in Apply(w, a).db.deliveries && RowTimely(Apply(w, a).db.deliveries[id], w.now) && LatestBegan(Apply(w, a), id)
  {
    if id in a.rows {
      LeasedRowTimely(w.db.deliveries[id], a.worker, a.workerNow, w.now);
      TakenBegan(w, a, id);
    } else {
      LeftBegan(w, a, id);
    }
  }

  lemma TakenBegan(w: World, a: Action, id: Uuid)
    requires Conserved(w) && a.Claim? && Enabled(w, a) && id in w.db.deliveries && id in a.rows
    ensures LatestBegan(Apply(w, a), id)
  {
    var key := ClaimKey(w.db.deliveries, id);
    assert !Counted(w, key);
    CopiesHas(w.db.deliveries, Elements(a.rows), a.workerNow, key);
  }

  lemma LeftBegan(w: World, a: Action, id: Uuid)
    requires a.Claim? && Enabled(w, a) && id in w.db.deliveries && id !in a.rows && LatestBegan(w, id)
    ensures LatestBegan(Apply(w, a), id)
  {
    CopiesHas(w.db.deliveries, Elements(a.rows), a.workerNow, AttemptKey(id, w.db.deliveries[id].attemptCount));
  }

  lemma LeasedRowTimely(d: Delivery, worker: string, workerNow: Time, now: Time)
    requires RowShape(d) && RowTimely(d, now)
    ensures RowTimely(Leased(d, worker, workerNow, now), now)
  {
  }

  /** An attempt begins when its copy was claimed. */
  lemma AttemptBegins(w: World, a: Action)
    requires CopiesAgree(w) && a.Report? && Enabled(w, a) && a.key !in w.db.attempts
    ensures a.key in Apply(w, a).db.attempts ==> Some(Apply(w, a).db.attempts[a.key].startedAt) == w.inFlight[a.key].lastAttemptAt
  {
    assert CopyKey(w.inFlight[a.key]) == a.key;
  }

  lemma ReportKeepsTimely(w: World, a: Action)
    requires Inv(w) && Timely(w) && a.Report? && Enabled(w, a)
    ensures Timely(Apply(w, a))
  {
    ReportIsAccepted(w, a.key, a.result, a.retryAt, a.latency, a.workerNow);
    AttemptBegins(w, a);
    RecordingKeepsTimely(w, Apply(w, a), a.key, a.result);
  }

  lemma RecordingKeepsTimely(w: World, w': World, key: AttemptKey, result: ResultStatus)
    requires Timely(w) && key in w.inFlight && key.delivery in w.db.deliveries && ReportEffect(w, w', key, result)
    requires Some(w'.db.attempts[key].startedAt) == w.inFlight[key].lastAttemptAt
    ensures Timely(w')
  {
    forall id | id in w'.db.deliveries
      ensures RowTimely(w'.db.deliveries[id], w'.now) && LatestBegan(w', id)
    {
      assert RowTimely(w.db.deliveries[id], w.now) && LatestBegan(w, id);
    }
  }

  lemma OtherStepsKeepTimely(w: World, a: Action)
    requires Inv(w) && Timely(w) && !a.Accept? && !a.Claim? && !a.Report? && Enabled(w, a)
    ensures Timely(Apply(w, a))
  {
    if a.WriteReplay? {
      NewRowsAreTimely(w, Apply(w, a));
    } else {
      assert forall id :: id in w.db.deliveries ==> LatestBegan(w, id);
    }
  }

  /** In every reachable world the times in the tables tell one story. */
  lemma {:induction false} TimelyAlways(ws: seq<World>, acts: seq<Action>, i: nat)
    requires Run(ws, acts) && i < |ws|
    ensures Timely(ws[i])
  {
    if i > 0 {
      var w, a := ws[i - 1], acts[i - 1];
      TimelyAlways(ws, acts, i - 1);
      InvAlways(ws, acts, i - 1);
      if a.Accept? {
        AcceptKeepsTimely(w, a);
      } else if a.Claim? {
        ClaimKeepsTimely(w, a);
      } else if a.Report? {
        ReportKeepsTimely(w, a);
      } else {
        OtherStepsKeepTimely(w, a);
      }
    }
  }
}
