/** A run that backdates a retry: a worker fails at once, works out its retry time and stalls; its delivery is taken
    over, retried and claimed again, and when the worker reports at last the row jumps ahead of a delivery that was past
    due all along. */
module BackdatedRetry {
  import opened Basics
  import opened DeliveryModel
  import opened DeliveryTables
  import opened DeliverySystem
  import opened ClaimFairness

  const POLICY := RetryPolicy(5, "exponential", 1_000, 60_000, 0)
  const TARGET := EndpointSnapshotWithId(10, EndpointSnapshot("order.created", "https://example.org", "", 5_000, 10_000, POLICY))

  function Event(id: Uuid): EventAccepted {
    EventAccepted(id, 7, "order.created", "{}")
  }

  /** Accepting an event for one endpoint adds one row. */
  lemma AcceptOne(w: World, id: Uuid) returns (w': World)
    requires id !in w.db.deliveries && !HasOriginal(w.db.deliveries, id, 10)
    ensures Segment([w, w'], [Accept(Event(id), [TARGET], [id])])
    ensures w' == w.(db := w.db.(deliveries := w.db.deliveries[id := NewDelivery(id, Event(id), TARGET, w.now)]))
  {
    assert FanOut(w.db.deliveries, Event(id), [TARGET][..0], [id][..0], w.now) == w.db.deliveries;
    assert FanOut(w.db.deliveries, Event(id), [TARGET], [id], w.now)
        == InsertOriginal(w.db.deliveries, Event(id), TARGET, id, w.now);
    w' := Apply(w, Accept(Event(id), [TARGET], [id]));
  }

  lemma Wait(w: World, to: Time) returns (w': World)
    requires w.now <= to
    ensures Segment([w, w'], [Advance(to)]) && w' == w.(now := to)
  {
    w' := w.(now := to);
  }

  /** Claiming the only row of the table. */
  lemma ClaimOnly(w: World, id: Uuid, worker: string) returns (w': World)
    requires w.db.deliveries.Keys == {id} && Eligible(w.db.deliveries[id], w.now)
    ensures Segment([w, w'], [Claim(worker, 10, {}, [id], w.now)])
    ensures w'.now == w.now && w'.db == Tables(map[id := Leased(w.db.deliveries[id], worker, w.now, w.now)], w.db.attempts)
    ensures w'.inFlight == w.inFlight[ClaimKey(w.db.deliveries, id) := ClaimedCopy(w.db.deliveries[id], w.now)]
  {
    w' := Apply(w, Claim(worker, 10, {}, [id], w.now));
    assert Elements([id]) == {id};
    CopyOfOne(w.db.deliveries, id, w.now);
    assert w'.db.deliveries == map[id := Leased(w.db.deliveries[id], worker, w.now, w.now)];
  }

  lemma CopyOfOne(deliveries: map<Uuid, Delivery>, id: Uuid, workerNow: Time)
    requires id in deliveries
    ensures Copies(deliveries, {id}, workerNow) == map[ClaimKey(deliveries, id) := ClaimedCopy(deliveries[id], workerNow)]
  {
    var key := ClaimKey(deliveries, id);
    assert id in {id};
    assert key in Copies(deliveries, {id}, workerNow);
  }

  /** Claiming both rows of a table of two. */
  lemma ClaimBoth(w: World, first: Uuid, second: Uuid, worker: string) returns (w': World)
    requires w.db.deliveries.Keys == {first, second} && first != second
    requires Eligible(w.db.deliveries[first], w.now) && Eligible(w.db.deliveries[second], w.now)
    requires NotAfter(w.db.deliveries[first], w.db.deliveries[second])
    ensures Segment([w, w'], [Claim(worker, 10, {}, [first, second], w.now)])
    ensures w'.now == w.now && w'.db.attempts == w.db.attempts && w'.db.deliveries.Keys == {first, second}
    ensures w'.db.deliveries[first] == Leased(w.db.deliveries[first], worker, w.now, w.now)
    ensures w'.db.deliveries[second] == Leased(w.db.deliveries[second], worker, w.now, w.now)
    ensures forall key :: key in w.inFlight && key.number <= w.db.deliveries[second].attemptCount && key.delivery == second ==>
              key in w'.inFlight && w'.inFlight[key] == w.inFlight[key]
  {
    w' := Apply(w, Claim(worker, 10, {}, [first, second], w.now));
    var rows := Elements([first, second]);
    assert rows == {first, second};
    forall key | key in Copies(w.db.deliveries, rows, w.now)
      ensures key == ClaimKey(w.db.deliveries, key.delivery)
    {
      CopiesHas(w.db.deliveries, rows, w.now, key);
    }
  }

  /** A retryable failure with attempts to spare, reported while the row is IN_PROGRESS. */
  lemma ReportRetry(w: World, key: AttemptKey, retryAt: Time) returns (w': World)
    requires key in w.inFlight && CopyKey(w.inFlight[key]) == key && key !in w.db.attempts
    requires key.delivery in w.db.deliveries && w.db.deliveries[key.delivery].status == InProgress
    requires key.number < w.inFlight[key].snapshot.retryPolicy.maxAttempts
    ensures Segment([w, w'], [Report(key, RetryableFailure, retryAt, 0, w.now)])
    ensures w'.now == w.now && w'.inFlight == w.inFlight - {key}
    ensures w'.db.deliveries == w.db.deliveries[key.delivery := Moved(w.db.deliveries[key.delivery], Retrying, retryAt, w.now)]
    ensures w'.db.attempts.Keys == w.db.attempts.Keys + {key}
  {
    w' := Apply(w, Report(key, RetryableFailure, retryAt, 0, w.now));
  }

  const STALL := [Accept(Event(1), [TARGET], [1])] + [Claim("a", 10, {}, [1], 0)]

  const SLEEP: Action := Advance(31 * SECOND)

  const TAKEOVER := [Claim("b", 10, {}, [1], 31 * SECOND)] + [Report(AttemptKey(1, 2), RetryableFailure, 100 * SECOND, 0, 31 * SECOND)]

  const ARRIVAL := [Accept(Event(2), [TARGET], [2])] + [Advance(100 * SECOND)]

  const SECOND_CLAIM := [Claim("b", 10, {}, [2, 1], 100 * SECOND)] + [Advance(131 * SECOND)]

  const LATE: Action := Report(AttemptKey(1, 1), RetryableFailure, 2 * SECOND, 0, 131 * SECOND)

  lemma TwoSteps(w: World, a: Action, w1: World, b: Action, w2: World)
    requires Segment([w, w1], [a]) && Segment([w1, w2], [b])
    ensures Segment([w, w1, w2], [a] + [b])
  {
    Joined([w, w1], [a], [w1, w2], [b]);
    assert [w, w1] + [w1, w2][1..] == [w, w1, w2];
  }

  /** Delivery 1 as far as it matters, and worker `a` still holding its first copy. */
  ghost predicate Stage(w: World, now: Time, rows: set<Uuid>, recorded: set<AttemptKey>, status: Status, count: int, next: Time) {
    && w.now == now && w.db.deliveries.Keys == rows && w.db.attempts.Keys == recorded
    && 1 in w.db.deliveries
    && (var d := w.db.deliveries[1];
        && d.id == 1 && d.eventId == 1 && d.createdAt == 0 && d.snapshot == TARGET.snapshot
        && d.status == status && d.attemptCount == count && d.nextAttemptAt == next)
    && AttemptKey(1, 1) in w.inFlight
    && (var copy := w.inFlight[AttemptKey(1, 1)]; CopyKey(copy) == AttemptKey(1, 1) && copy.snapshot == TARGET.snapshot)
  }

  /** Worker `a` claims delivery 1, fails, works out a retry at two seconds, and stalls. */
  lemma Stall(w: World) returns (w1: World, w2: World)
    requires Initial(w) && w.now == 0
    ensures Segment([w, w1, w2], STALL)
    ensures Stage(w2, 0, {1}, {}, InProgress, 1, 0) && w2.db.deliveries[1].leaseExpiresAt == Some(30 * SECOND)
  {
    w1 := AcceptOne(w, 1);
    w2 := ClaimOnly(w1, 1, "a");
    TwoSteps(w, Accept(Event(1), [TARGET], [1]), w1, Claim("a", 10, {}, [1], 0), w2);
  }

  /** Worker `b` takes delivery 1 over, fails as well, and has it retried at a hundred seconds. */
  lemma Takeover(w: World) returns (w1: World, w2: World)
    requires Stage(w, 31 * SECOND, {1}, {}, InProgress, 1, 0) && w.db.deliveries[1].leaseExpiresAt == Some(30 * SECOND)
    ensures Segment([w, w1, w2], TAKEOVER)
    ensures Stage(w2, 31 * SECOND, {1}, {AttemptKey(1, 2)}, Retrying, 2, 100 * SECOND)
  {
    w1 := ClaimOnly(w, 1, "b");
    w2 := ReportRetry(w1, AttemptKey(1, 2), 100 * SECOND);
    TwoSteps(w, Claim("b", 10, {}, [1], 31 * SECOND), w1, Report(AttemptKey(1, 2), RetryableFailure, 100 * SECOND, 0, 31 * SECOND), w2);
  }

  /** Delivery 2 arrives while delivery 1 waits for its retry. */
  lemma Arrival(w: World) returns (w1: World, w2: World)
    requires Stage(w, 31 * SECOND, {1}, {AttemptKey(1, 2)}, Retrying, 2, 100 * SECOND)
    ensures Segment([w, w1, w2], ARRIVAL)
    ensures Stage(w2, 100 * SECOND, {1, 2}, {AttemptKey(1, 2)}, Retrying, 2, 100 * SECOND)
    ensures var d := w2.db.deliveries[2]; d.status == Pending && d.nextAttemptAt == 31 * SECOND
  {
    w1 := AcceptOne(w, 2);
    w2 := Wait(w1, 100 * SECOND);
    TwoSteps(w, Accept(Event(2), [TARGET], [2]), w1, Advance(100 * SECOND), w2);
  }

  /** Worker `b` claims both when the retry is due, and is slow this time. */
  lemma SecondClaim(w: World) returns (w1: World, w2: World)
    requires Stage(w, 100 * SECOND, {1, 2}, {AttemptKey(1, 2)}, Retrying, 2, 100 * SECOND)
    requires var d := w.db.deliveries[2]; d.status == Pending && d.nextAttemptAt == 31 * SECOND
    ensures Segment([w, w1, w2], SECOND_CLAIM)
    ensures Stage(w2, 131 * SECOND, {1, 2}, {AttemptKey(1, 2)}, InProgress, 3, 100 * SECOND)
    ensures w2.db.deliveries[2].status == InProgress && w2.db.deliveries[2].nextAttemptAt == 31 * SECOND
  {
    w1 := ClaimBoth(w, 2, 1, "b");
    w2 := Wait(w1, 131 * SECOND);
    TwoSteps(w, Claim("b", 10, {}, [2, 1], 100 * SECOND), w1, Advance(131 * SECOND), w2);
  }

  lemma LateReport(w: World) returns (w': World)
    requires Stage(w, 131 * SECOND, {1, 2}, {AttemptKey(1, 2)}, InProgress, 3, 100 * SECOND)
    requires w.db.deliveries[2].status == InProgress && w.db.deliveries[2].nextAttemptAt == 31 * SECOND
    ensures Segment([w, w'], [LATE]) && Backdates(w, LATE) && Overtakes(w, LATE, 2)
    ensures PastDue(w, 2) && 1 !in Ahead(w, 2)
    ensures 2 in w'.db.deliveries && w'.db.deliveries[2] == w.db.deliveries[2] && 1 in Ahead(w', 2)
  {
    w' := ReportRetry(w, AttemptKey(1, 1), 2 * SECOND);
  }

  /** Backdating is reachable, and in this run it puts delivery 1 ahead of delivery 2, which was past due and did not
      change: the promise of `NothingOvertakes` fails without its hypothesis. */
  lemma BackdatingIsReachable(w: World) returns (ws: seq<World>)
    requires Initial(w) && w.now == 0
    ensures Run(ws, STALL + [SLEEP] + TAKEOVER + ARRIVAL + SECOND_CLAIM + [LATE]) && ws[0] == w && |ws| == 11
    ensures Backdates(ws[9], LATE) && Overtakes(ws[9], LATE, 2)
    ensures PastDue(ws[9], 2) && 1 !in Ahead(ws[9], 2)
    ensures 2 in ws[10].db.deliveries && ws[10].db.deliveries[2] == ws[9].db.deliveries[2] && 1 in Ahead(ws[10], 2)
  {
    var w1, w2 := Stall(w);
    var w3 := Wait(w2, 31 * SECOND);
    var w4, w5 := Takeover(w3);
    var w6, w7 := Arrival(w5);
    var w8, w9 := SecondClaim(w7);
    var w10 := LateReport(w9);
    ws := [w, w1, w2];
    Joined(ws, STALL, [w2, w3], [SLEEP]);
    ws := ws + [w2, w3][1..];
    Joined(ws, STALL + [SLEEP], [w3, w4, w5], TAKEOVER);
    ws := ws + [w3, w4, w5][1..];
    Joined(ws, STALL + [SLEEP] + TAKEOVER, [w5, w6, w7], ARRIVAL);
    ws := ws + [w5, w6, w7][1..];
    Joined(ws, STALL + [SLEEP] + TAKEOVER + ARRIVAL, [w7, w8, w9], SECOND_CLAIM);
    ws := ws + [w7, w8, w9][1..];
    Joined(ws, STALL + [SLEEP] + TAKEOVER + ARRIVAL + SECOND_CLAIM, [w9, w10], [LATE]);
    ws := ws + [w9, w10][1..];
  }
}
