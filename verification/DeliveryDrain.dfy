/** What the delivery service does when its workers are prompt: one clock, every claim recorded before its lease ends,
    none lost. Each row is then a fold over its recorded outcomes, and the whole table drains. */
module DeliveryDrain {
  import opened Basics
  import opened DeliveryModel
  import opened DeliveryTables
  import opened DeliverySystem
  import opened ClaimQuery

  /** Workers share the database's clock, time never passes the lease of a claim in flight, and no claim is lost. */
  ghost predicate Prompt(w: World, a: Action) {
    match a
    case Advance(to) =>
      forall key :: key in w.inFlight && key.delivery in w.db.deliveries && w.db.deliveries[key.delivery].leaseExpiresAt.Some? ==>
        to <= w.db.deliveries[key.delivery].leaseExpiresAt.value
    case Claim(_, _, _, _, workerNow) => workerNow == w.now
    case Lose(_) => false
    case _ => true
  }

  /** How many attempts of `id` are on record when its row says `d`. */
  function RecordedCount(d: Delivery): int {
    d.attemptCount - One(d.status == InProgress)
  }

  ghost function OutcomeAt(db: Tables, id: Uuid, n: int): ResultStatus {
    if AttemptKey(id, n) in db.attempts then db.attempts[AttemptKey(id, n)].status else Success
  }

  /** The first `n` outcomes of `id`, in order of attempt number. */
  ghost function Outcomes(db: Tables, id: Uuid, n: nat): seq<ResultStatus> {
    if n == 0 then [] else Outcomes(db, id, n - 1) + [OutcomeAt(db, id, n)]
  }

  /** The status a delivery has after these outcomes: the last one decides. */
  function StatusAfter(outcomes: seq<ResultStatus>, maxAttempts: int): Status {
    if outcomes == [] then Pending
    else
      match outcomes[|outcomes| - 1]
      case Success => Delivered
      case PermanentFailure => Failed
      case RetryableFailure => if |outcomes| >= maxAttempts then Dlq else Retrying
  }

  /** The row is the fold over its outcomes: all but the last were retryable, their number is within the budget, and
      the last one gives the status; while a claim is in flight the status is the one the claim started from. */
  ghost predicate Folds(d: Delivery, outcomes: seq<ResultStatus>) {
    var status := StatusAfter(outcomes, d.snapshot.retryPolicy.maxAttempts);
    && |outcomes| == RecordedCount(d) <= AttemptBudget(d)
    && (forall k :: 0 <= k < |outcomes| - 1 ==> outcomes[k] == RetryableFailure)
    && (if d.status == InProgress then status == Pending || status == Retrying else d.status == status)
  }

  /** At most one claim is in flight: the latest, held under an unexpired lease. */
  ghost predicate OneFlight(w: World, id: Uuid)
    requires id in w.db.deliveries
  {
    var d := w.db.deliveries[id];
    && (d.status == InProgress ==> AttemptKey(id, d.attemptCount) in w.inFlight
                                   && d.leaseExpiresAt.Some? && w.now <= d.leaseExpiresAt.value)
    && (forall key :: key in w.inFlight && key.delivery == id ==> d.status == InProgress && key.number == d.attemptCount)
  }

  /** The attempts on record are numbered without gaps. */
  ghost predicate Gapless(w: World, id: Uuid)
    requires id in w.db.deliveries
  {
    && RecordedCount(w.db.deliveries[id]) >= 0
    && (forall n :: AttemptKey(id, n) in w.db.attempts <==> 1 <= n <= RecordedCount(w.db.deliveries[id]))
  }

  ghost predicate RowTidy(w: World, id: Uuid)
    requires id in w.db.deliveries
  {
    && OneFlight(w, id)
    && Gapless(w, id)
    && Folds(w.db.deliveries[id], Outcomes(w.db, id, RecordedCount(w.db.deliveries[id])))
  }

  ghost predicate Tidy(w: World) {
    && Inv(w)
    && w.seen.lost == {}
    && forall id :: id in w.db.deliveries ==> RowTidy(w, id)
  }

  lemma {:induction false} SameOutcomes(db: Tables, db': Tables, id: Uuid, n: nat)
    requires forall k :: 1 <= k <= n ==> OutcomeAt(db, id, k) == OutcomeAt(db', id, k)
    ensures Outcomes(db', id, n) == Outcomes(db, id, n) && |Outcomes(db, id, n)| == n
  {
    if n > 0 {
      SameOutcomes(db, db', id, n - 1);
    }
  }

  lemma NothingExpires(w: World, id: Uuid)
    requires Tidy(w) && id in w.db.deliveries && w.db.deliveries[id].status == InProgress
    ensures !Eligible(w.db.deliveries[id], w.now)
  {
    assert RowTidy(w, id);
  }

  /** A row is as tidy as before while neither it nor its attempts change and its lease has not ended. */
  lemma UntouchedRowTidy(w: World, w': World, id: Uuid)
    requires id in w.db.deliveries && RowTidy(w, id)
    requires id in w'.db.deliveries && w'.db.deliveries[id] == w.db.deliveries[id]
    requires w'.inFlight == w.inFlight && w'.db.attempts == w.db.attempts
    requires w.db.deliveries[id].leaseExpiresAt.Some? && w.db.deliveries[id].status == InProgress ==>
               w'.now <= w.db.deliveries[id].leaseExpiresAt.value
    ensures RowTidy(w', id)
  {
    SameOutcomes(w.db, w'.db, id, RecordedCount(w.db.deliveries[id]));
  }

  lemma AdvanceKeepsTidy(w: World, a: Action)
    requires Tidy(w) && a.Advance? && Enabled(w, a) && Prompt(w, a)
    ensures Tidy(Apply(w, a))
  {
    var w' := Apply(w, a);
    AdvanceKeepsInv(w, a);
    forall id | id in w'.db.deliveries
      ensures RowTidy(w', id)
    {
      assert RowTidy(w, id);
      UntouchedRowTidy(w, w', id);
    }
  }

  lemma AcceptKeepsTidy(w: World, a: Action)
    requires Tidy(w) && a.Accept? && Enabled(w, a)
    ensures Tidy(Apply(w, a))
  {
    var w' := Apply(w, a);
    AcceptKeepsInv(w, a);
    FanOutAdds(w.db.deliveries, a.event, a.eps, a.ids, w.now);
    NewRowsKeepTidy(w, w');
  }

  lemma NewRowsKeepTidy(w: World, w': World)
    requires Tidy(w) && w'.now == w.now && w'.inFlight == w.inFlight && w'.db.attempts == w.db.attempts
    requires forall id :: id in w.db.deliveries ==> id in w'.db.deliveries && w'.db.deliveries[id] == w.db.deliveries[id]
    requires forall id :: id in w'.db.deliveries && id !in w.db.deliveries ==>
               w'.db.deliveries[id].status == Pending && w'.db.deliveries[id].attemptCount == 0
    ensures forall id :: id in w'.db.deliveries ==> RowTidy(w', id)
  {
    forall id | id in w'.db.deliveries
      ensures RowTidy(w', id)
    {
      if id in w.db.deliveries {
        assert RowTidy(w, id);
        UntouchedRowTidy(w, w', id);
      } else {
        NewRowTidy(w, w', id);
      }
    }
  }

  lemma NewRowTidy(w: World, w': World, id: Uuid)
    requires Inv(w) && id !in w.db.deliveries && id in w'.db.deliveries
    requires w'.inFlight == w.inFlight && w'.db.attempts == w.db.attempts
    requires w'.db.deliveries[id].status == Pending && w'.db.deliveries[id].attemptCount == 0
    ensures RowTidy(w', id)
  {
    assert forall n :: !Counted(w, AttemptKey(id, n));
  }

  lemma ReplayKeepsTidy(w: World, a: Action)
    requires Tidy(w) && (a.ReadReplay? || a.WriteReplay?) && Enabled(w, a)
    ensures Tidy(Apply(w, a))
  {
    OtherStepsKeepInv(w, a);
    NewRowsKeepTidy(w, Apply(w, a));
  }

  lemma ClaimKeepsTidy(w: World, a: Action)
    requires Tidy(w) && a.Claim? && Enabled(w, a) && Prompt(w, a)
    ensures Tidy(Apply(w, a))
  {
    var w' := Apply(w, a);
    ClaimKeepsInv(w, a);
    forall id | id in w'.db.deliveries
      ensures RowTidy(w', id)
    {
      ClaimKeepsRowTidy(w, a, id);
    }
  }

  lemma ClaimKeepsRowTidy(w: World, a: Action, id: Uuid)
    requires Tidy(w) && a.Claim? && Enabled(w, a) && Prompt(w, a) && id in w.db.deliveries
    ensures RowTidy(Apply(w, a), id)
  {
    ClaimKeepsOneFlight(w, a, id);
    assert RowTidy(w, id);
    if w.db.deliveries[id].status == InProgress {
      NothingExpires(w, id);
    }
    LeasedRowTidy(w, Apply(w, a), id);
  }

  lemma LeasedRowTidy(w: World, w': World, id: Uuid)
    requires id in w.db.deliveries && RowTidy(w, id)
    requires id in w'.db.deliveries && OneFlight(w', id) && w'.db.attempts == w.db.attempts
    requires var d, d' := w.db.deliveries[id], w'.db.deliveries[id];
             d' == d || ((d.status == Pending || d.status == Retrying) && d'.status == InProgress
                         && d'.attemptCount == d.attemptCount + 1 && d'.snapshot == d.snapshot)
    ensures RowTidy(w', id)
  {
    SameOutcomes(w.db, w'.db, id, RecordedCount(w.db.deliveries[id]));
  }

  lemma ClaimKeepsOneFlight(w: World, a: Action, id: Uuid)
    requires Tidy(w) && a.Claim? && Enabled(w, a) && Prompt(w, a) && id in w.db.deliveries
    ensures OneFlight(Apply(w, a), id)
  {
    var w' := Apply(w, a);
    var d := w.db.deliveries[id];
    assert OneFlight(w, id);
    if d.status == InProgress {
      NothingExpires(w, id);
    }
    CopiesHas(w.db.deliveries, Elements(a.rows), a.workerNow, ClaimKey(w.db.deliveries, id));
    forall key | key in w'.inFlight && key.delivery == id
      ensures w'.db.deliveries[id].status == InProgress && key.number == w'.db.deliveries[id].attemptCount
    {
      CopiesHas(w.db.deliveries, Elements(a.rows), a.workerNow, key);
    }
  }

  lemma ReportKeepsTidy(w: World, a: Action)
    requires Tidy(w) && a.Report? && Enabled(w, a)
    ensures Tidy(Apply(w, a))
  {
    var w' := Apply(w, a);
    ReportKeepsInv(w, a);
    ReportIsAccepted(w, a.key, a.result, a.retryAt, a.latency, a.workerNow);
    forall id | id in w'.db.deliveries
      ensures RowTidy(w', id)
    {
      if id == a.key.delivery {
        ReportedRowTidy(w, w', a.key, a.result);
      } else {
        assert RowTidy(w, id);
        OtherRowTidy(w, w', a.key, a.result, id);
      }
    }
  }

  lemma OtherRowTidy(w: World, w': World, key: AttemptKey, result: ResultStatus, id: Uuid)
    requires key in w.inFlight && key.delivery in w.db.deliveries && ReportEffect(w, w', key, result)
    requires id in w.db.deliveries && id != key.delivery && RowTidy(w, id)
    ensures id in w'.db.deliveries && RowTidy(w', id)
  {
    DistantRowTidy(w, w', key, id);
  }

  lemma DistantRowTidy(w: World, w': World, key: AttemptKey, id: Uuid)
    requires id in w.db.deliveries && id != key.delivery && RowTidy(w, id)
    requires id in w'.db.deliveries && w'.db.deliveries[id] == w.db.deliveries[id] && w'.now == w.now
    requires w'.inFlight == w.inFlight - {key}
    requires key in w'.db.attempts && w'.db.attempts == w.db.attempts[key := w'.db.attempts[key]]
    ensures RowTidy(w', id)
  {
    SameOutcomes(w.db, w'.db, id, RecordedCount(w.db.deliveries[id]));
  }

  lemma ReportedRowTidy(w: World, w': World, key: AttemptKey, result: ResultStatus)
    requires Tidy(w) && key in w.inFlight && key.delivery in w.db.deliveries && ReportEffect(w, w', key, result)
    ensures RowTidy(w', key.delivery)
  {
    var d, d' := w.db.deliveries[key.delivery], w'.db.deliveries[key.delivery];
    assert RowTidy(w, key.delivery);
    assert CopyKey(w.inFlight[key]) == key && OrderOf(w.inFlight[key]) == OrderOf(d);
    assert d.status == InProgress && key.number == d.attemptCount;
    MovedRowTidy(w, w', key, result);
  }

  lemma MovedRowTidy(w: World, w': World, key: AttemptKey, result: ResultStatus)
    requires key.delivery in w.db.deliveries && RowTidy(w, key.delivery) && key.delivery in w'.db.deliveries
    requires var d, d' := w.db.deliveries[key.delivery], w'.db.deliveries[key.delivery];
             && d.status == InProgress && key.number == d.attemptCount
             && d'.status != InProgress && d'.status == NextStatus(d, result)
             && d'.attemptCount == d.attemptCount && d'.snapshot == d.snapshot
    requires key in w'.db.attempts && w'.db.attempts == w.db.attempts[key := w'.db.attempts[key]]
    requires w'.db.attempts[key].status == result && w'.inFlight == w.inFlight - {key}
    ensures RowTidy(w', key.delivery)
  {
    var id := key.delivery;
    var d, d' := w.db.deliveries[id], w'.db.deliveries[id];
    var n := RecordedCount(d);
    assert key == AttemptKey(id, n + 1);
    assert OutcomeAt(w'.db, id, n + 1) == result;
    SameOutcomes(w.db, w'.db, id, n);
    assert Outcomes(w'.db, id, n + 1) == Outcomes(w.db, id, n) + [result];
    OutcomeFolds(d, d', Outcomes(w.db, id, n), result);
  }

  /** Moving a row by one more outcome is folding that outcome in. */
  lemma OutcomeFolds(d: Delivery, d': Delivery, outcomes: seq<ResultStatus>, result: ResultStatus)
    requires Folds(d, outcomes) && d.status == InProgress
    requires d'.attemptCount == d.attemptCount && d'.snapshot == d.snapshot && d'.status == NextStatus(d, result)
    ensures Folds(d', outcomes + [result])
  {
  }

  lemma PromptStepKeepsTidy(w: World, a: Action)
    requires Tidy(w) && Enabled(w, a) && Prompt(w, a)
    ensures Tidy(Apply(w, a))
  {
    if a.Advance? {
      AdvanceKeepsTidy(w, a);
    } else if a.Accept? {
      AcceptKeepsTidy(w, a);
    } else if a.Claim? {
      ClaimKeepsTidy(w, a);
    } else if a.Report? {
      ReportKeepsTidy(w, a);
    } else {
      ReplayKeepsTidy(w, a);
    }
  }

  ghost predicate PromptRun(ws: seq<World>, acts: seq<Action>) {
    Run(ws, acts) && forall i :: 0 <= i < |acts| ==> Prompt(ws[i], acts[i])
  }

  /** In a prompt run each delivery has at most one claim in flight, its attempts are numbered without gaps, all but the
      last outcome are retryable, and its row is the fold over its outcomes. */
  lemma {:induction false} PromptRunsAreTidy(ws: seq<World>, acts: seq<Action>, i: nat)
    requires PromptRun(ws, acts) && i < |ws|
    ensures Tidy(ws[i])
  {
    if i > 0 {
      PromptRunsAreTidy(ws, acts, i - 1);
      PromptStepKeepsTidy(ws[i - 1], acts[i - 1]);
    }
  }

  // ----- draining -----

  /** A step that brings no new work. */
  predicate Drains(a: Action) {
    a.Advance? || a.Claim? || a.Report?
  }

  ghost function AttemptCounts(w: World): map<Uuid, int> {
    map id | id in w.db.deliveries :: w.db.deliveries[id].attemptCount
  }

  ghost function AttemptBudgets(w: World): map<Uuid, int> {
    map id | id in w.db.deliveries :: AttemptBudget(w.db.deliveries[id])
  }

  /** The claims that may still come, counted twice, and the results that are still due. */
  ghost function Work(w: World): int {
    2 * (Sum(AttemptBudgets(w)) - Sum(AttemptCounts(w))) + |w.inFlight|
  }

  function Claimed(a: Action): nat {
    if a.Claim? then |a.rows| else 0
  }

  lemma WithinBudget(w: World, id: Uuid)
    requires Tidy(w) && id in w.db.deliveries
    ensures w.db.deliveries[id].attemptCount <= AttemptBudget(w.db.deliveries[id])
    ensures w.db.deliveries[id].status in {Pending, Retrying} ==> w.db.deliveries[id].attemptCount < AttemptBudget(w.db.deliveries[id])
  {
    assert RowTidy(w, id);
    var d := w.db.deliveries[id];
    SameOutcomes(w.db, w.db, id, RecordedCount(d));
    assert Folds(d, Outcomes(w.db, id, RecordedCount(d)));
  }

  lemma CountsWithin(w: World)
    requires Tidy(w)
    ensures forall id :: id in w.db.deliveries ==> 0 <= AttemptCounts(w)[id] <= AttemptBudgets(w)[id]
  {
    forall id | id in w.db.deliveries
      ensures 0 <= AttemptCounts(w)[id] <= AttemptBudgets(w)[id]
    {
      WithinBudget(w, id);
      assert RowShape(w.db.deliveries[id]);
    }
  }

  /** A tidy world has work left, as a natural number. */
  lemma WorkIsBounded(w: World)
    requires Tidy(w)
    ensures 0 <= Sum(AttemptCounts(w)) <= Sum(AttemptBudgets(w)) && |w.inFlight| <= Work(w)
  {
    CountsWithin(w);
    SumBounds(AttemptCounts(w), AttemptBudgets(w));
    var zeros := map id | id in w.db.deliveries :: 0;
    SumBounds(zeros, AttemptCounts(w));
    ZeroSum(zeros);
  }

  lemma {:induction false} ZeroSum(m: map<Uuid, int>)
    requires forall k :: k in m ==> m[k] == 0
    ensures Sum(m) == 0
    decreases |m|
  {
    if m != map[] {
      var k :| k in m.Keys;
      SumSplit(m, k);
      assert |m - {k}| < |m| by { assert (m - {k}).Keys == m.Keys - {k}; }
      ZeroSum(m - {k});
    }
  }

  lemma {:induction false} CopiesCard(deliveries: map<Uuid, Delivery>, rows: set<Uuid>, workerNow: Time)
    requires rows <= deliveries.Keys
    ensures |Copies(deliveries, rows, workerNow)| == |rows|
  {
    if rows == {} {
      assert Copies(deliveries, rows, workerNow) == map[];
    } else {
      var id :| id in rows;
      CopiesCard(deliveries, rows - {id}, workerNow);
      var key := ClaimKey(deliveries, id);
      var fewer := Copies(deliveries, rows - {id}, workerNow);
      forall k
        ensures k in Copies(deliveries, rows, workerNow) <==> k in fewer || k == key
        ensures k == key ==> k !in fewer
      {
        CopiesHas(deliveries, rows, workerNow, k);
        CopiesHas(deliveries, rows - {id}, workerNow, k);
      }
      assert Copies(deliveries, rows, workerNow).Keys == fewer.Keys + {key};
      assert |fewer.Keys| == |fewer| && |Copies(deliveries, rows, workerNow).Keys| == |Copies(deliveries, rows, workerNow)|;
    }
  }

  lemma ClaimAddsFlights(w: World, a: Action)
    requires Tidy(w) && a.Claim? && Enabled(w, a)
    ensures |Apply(w, a).inFlight| == |w.inFlight| + |a.rows|
  {
    var w' := Apply(w, a);
    var taken := Elements(a.rows);
    DistinctCard(a.rows);
    var copies := Copies(w.db.deliveries, taken, a.workerNow);
    CopiesCard(w.db.deliveries, taken, a.workerNow);
    forall key | key in copies
      ensures key !in w.inFlight
    {
      CopiesHas(w.db.deliveries, taken, a.workerNow, key);
      assert !Counted(w, key);
    }
    assert w'.inFlight == w.inFlight + copies;
    UnionCard(w.inFlight, copies);
  }

  lemma UnionCard(a: map<AttemptKey, Delivery>, b: map<AttemptKey, Delivery>)
    requires forall key :: key in b ==> key !in a
    ensures |a + b| == |a| + |b|
  {
    assert (a + b).Keys == a.Keys + b.Keys;
    assert |a.Keys + b.Keys| == |a.Keys| + |b.Keys|;
    assert |a.Keys| == |a| && |b.Keys| == |b| && |(a + b).Keys| == |a + b|;
  }

  lemma ClaimRaisesCounts(w: World, a: Action)
    requires a.Claim? && Enabled(w, a)
    ensures AttemptBudgets(Apply(w, a)) == AttemptBudgets(w)
    ensures Sum(AttemptCounts(Apply(w, a))) == Sum(AttemptCounts(w)) + |a.rows|
  {
    DistinctCard(a.rows);
    CountsRaised(w, Apply(w, a), Elements(a.rows));
    SumRaise(AttemptCounts(w), AttemptCounts(Apply(w, a)), Elements(a.rows));
  }

  lemma CountsRaised(w: World, w': World, taken: set<Uuid>)
    requires w'.db.deliveries.Keys == w.db.deliveries.Keys && taken <= w.db.deliveries.Keys
    requires forall id :: id in w.db.deliveries ==>
               w'.db.deliveries[id].snapshot == w.db.deliveries[id].snapshot
               && w'.db.deliveries[id].attemptCount == w.db.deliveries[id].attemptCount + One(id in taken)
    ensures AttemptBudgets(w') == AttemptBudgets(w)
    ensures AttemptCounts(w).Keys == AttemptCounts(w').Keys && taken <= AttemptCounts(w).Keys
    ensures forall k :: k in AttemptCounts(w) ==> AttemptCounts(w')[k] == AttemptCounts(w)[k] + if k in taken then 1 else 0
  {
  }

  lemma ReportUsesWork(w: World, a: Action)
    requires Inv(w) && a.Report? && Enabled(w, a)
    ensures AttemptBudgets(Apply(w, a)) == AttemptBudgets(w) && AttemptCounts(Apply(w, a)) == AttemptCounts(w)
    ensures |Apply(w, a).inFlight| == |w.inFlight| - 1
  {
    ReportIsAccepted(w, a.key, a.result, a.retryAt, a.latency, a.workerNow);
    RecordingUsesWork(w, Apply(w, a), a.key, a.result);
  }

  lemma RecordingUsesWork(w: World, w': World, key: AttemptKey, result: ResultStatus)
    requires Shaped(w) && OneOriginal(w.db.deliveries)
    requires key in w.inFlight && key.delivery in w.db.deliveries && ReportEffect(w, w', key, result)
    ensures AttemptBudgets(w') == AttemptBudgets(w) && AttemptCounts(w') == AttemptCounts(w)
    ensures |w'.inFlight| == |w.inFlight| - 1
  {
    ReportKeepsRows(w, w', key, result);
    RowsAlike(w, w');
    assert w'.inFlight.Keys == w.inFlight.Keys - {key};
    assert |w'.inFlight.Keys| == |w'.inFlight| && |w.inFlight.Keys| == |w.inFlight|;
  }

  lemma RowsAlike(w: World, w': World)
    requires forall id :: id in w'.db.deliveries <==> id in w.db.deliveries
    requires forall id :: id in w.db.deliveries ==>
               OrderOf(w'.db.deliveries[id]) == OrderOf(w.db.deliveries[id])
               && w'.db.deliveries[id].attemptCount == w.db.deliveries[id].attemptCount
    ensures AttemptBudgets(w') == AttemptBudgets(w) && AttemptCounts(w') == AttemptCounts(w)
  {
  }

  /** Every draining step but the passing of time uses up work: a claim one unit for each row, a report one unit. */
  lemma DrainUsesWork(w: World, a: Action)
    requires Tidy(w) && Enabled(w, a) && Prompt(w, a) && Drains(a)
    ensures AttemptBudgets(Apply(w, a)) == AttemptBudgets(w)
    ensures Sum(AttemptCounts(Apply(w, a))) == Sum(AttemptCounts(w)) + Claimed(a)
    ensures Work(Apply(w, a)) == Work(w) - Claimed(a) - One(a.Report?)
  {
    if a.Claim? {
      ClaimAddsFlights(w, a);
      ClaimRaisesCounts(w, a);
    } else if a.Report? {
      ReportUsesWork(w, a);
    }
  }

  /** The rows claimed in steps i..j. */
  ghost function ClaimedBetween(acts: seq<Action>, i: nat, j: nat): nat
    requires i <= j <= |acts|
  {
    if i == j then 0 else ClaimedBetween(acts, i, j - 1) + Claimed(acts[j - 1])
  }

  ghost function ReportedBetween(acts: seq<Action>, i: nat, j: nat): nat
    requires i <= j <= |acts|
  {
    if i == j then 0 else ReportedBetween(acts, i, j - 1) + One(acts[j - 1].Report?)
  }

  /** From `w` to `w'` so many rows were claimed and so many results reported, and the accounts say so. */
  ghost predicate Accounts(w: World, w': World, claimed: nat, reported: nat) {
    && AttemptBudgets(w') == AttemptBudgets(w)
    && Sum(AttemptCounts(w')) == Sum(AttemptCounts(w)) + claimed
    && Work(w') == Work(w) - claimed - reported
  }

  lemma AccountsAdd(a: World, b: World, c: World, claimed: nat, reported: nat, claimed': nat, reported': nat)
    requires Accounts(a, b, claimed, reported) && Accounts(b, c, claimed', reported')
    ensures Accounts(a, c, claimed + claimed', reported + reported')
  {
  }

  lemma {:induction false} DrainAccount(ws: seq<World>, acts: seq<Action>, i: nat, j: nat)
    requires PromptRun(ws, acts) && i <= j < |ws|
    requires forall k :: i <= k < j ==> Drains(acts[k])
    ensures Accounts(ws[i], ws[j], ClaimedBetween(acts, i, j), ReportedBetween(acts, i, j))
    decreases j
  {
    if i < j {
      DrainAccount(ws, acts, i, j - 1);
      DrainStep(ws, acts, j);
      AccountsAdd(ws[i], ws[j - 1], ws[j], ClaimedBetween(acts, i, j - 1), ReportedBetween(acts, i, j - 1),
                  Claimed(acts[j - 1]), One(acts[j - 1].Report?));
    }
  }

  lemma DrainStep(ws: seq<World>, acts: seq<Action>, j: nat)
    requires PromptRun(ws, acts) && 0 < j < |ws| && Drains(acts[j - 1])
    ensures Accounts(ws[j - 1], ws[j], Claimed(acts[j - 1]), One(acts[j - 1].Report?))
  {
    PromptRunsAreTidy(ws, acts, j - 1);
    DrainUsesWork(ws[j - 1], acts[j - 1]);
  }

  /** The drain is bounded: from the moment arrivals stop, the claims still made are at most the sum over all deliveries of
      max(1, max_attempts) less the attempts already used, and claims and reports together at most the work left. When
      that many claims have been made and none is in flight, every delivery is final. */
  lemma DrainIsBounded(ws: seq<World>, acts: seq<Action>, i: nat, j: nat)
    requires PromptRun(ws, acts) && i <= j < |ws|
    requires forall k :: i <= k < j ==> Drains(acts[k])
    ensures ClaimedBetween(acts, i, j) <= Sum(AttemptBudgets(ws[i])) - Sum(AttemptCounts(ws[i]))
    ensures ClaimedBetween(acts, i, j) + ReportedBetween(acts, i, j) <= Work(ws[i])
    ensures ClaimedBetween(acts, i, j) == Sum(AttemptBudgets(ws[i])) - Sum(AttemptCounts(ws[i])) && ws[j].inFlight == map[] ==>
              forall id :: id in ws[j].db.deliveries ==> Final(ws[j].db.deliveries[id].status)
  {
    DrainAccount(ws, acts, i, j);
    PromptRunsAreTidy(ws, acts, j);
    WorkIsBounded(ws[j]);
    if ClaimedBetween(acts, i, j) == Sum(AttemptBudgets(ws[i])) - Sum(AttemptCounts(ws[i])) && ws[j].inFlight == map[] {
      var w := ws[j];
      forall id | id in w.db.deliveries
        ensures Final(w.db.deliveries[id].status)
      {
        assert RowTidy(w, id) && RowShape(w.db.deliveries[id]);
        WithinBudget(w, id);
        if w.db.deliveries[id].status in {Pending, Retrying} {
          SpareBudget(w, id);
        }
      }
    }
  }

  lemma SpareBudget(w: World, id: Uuid)
    requires Tidy(w) && id in w.db.deliveries && w.db.deliveries[id].status in {Pending, Retrying}
    ensures Sum(AttemptCounts(w)) < Sum(AttemptBudgets(w))
  {
    CountsWithin(w);
    WithinBudget(w, id);
    StrictlyLess(AttemptCounts(w), AttemptBudgets(w), id);
  }

  lemma StrictlyLess(a: map<Uuid, int>, b: map<Uuid, int>, id: Uuid)
    requires a.Keys == b.Keys && id in a && a[id] < b[id]
    requires forall k :: k in a ==> a[k] <= b[k]
    ensures Sum(a) < Sum(b)
  {
    SumSplit(a, id);
    SumSplit(b, id);
    SumBounds(a - {id}, b - {id});
  }

  /** Nothing gets stuck: while some delivery is not final, either a claim in flight can be recorded, or after a prompt
      wait a worker can claim a row. */
  lemma DrainNeverSticks(w: World, worker: string) returns (wait: Action, claim: Action)
    requires Tidy(w) && w.inFlight == map[] && exists id :: id in w.db.deliveries && !Final(w.db.deliveries[id].status)
    ensures wait.Advance? && Enabled(w, wait) && Prompt(w, wait)
    ensures claim.Claim? && Enabled(Apply(w, wait), claim) && Prompt(Apply(w, wait), claim) && Claimed(claim) == 1
  {
    var id :| id in w.db.deliveries && !Final(w.db.deliveries[id].status);
    assert RowTidy(w, id) && RowShape(w.db.deliveries[id]);
    var d := w.db.deliveries[id];
    var to := Max(w.now, d.nextAttemptAt);
    wait := Advance(to);
    var rows := AnswerExists(w.db.deliveries, {}, to, 1);
    claim := Claim(worker, 1, {}, rows, to);
    assert Eligible(d, to);
    assert id in rows || rows != [];
  }

  ghost predicate AllFinal(w: World) {
    forall id :: id in w.db.deliveries ==> Final(w.db.deliveries[id].status)
  }

  /** However long one waits, a claim gets nothing. */
  ghost predicate NothingToClaim(w: World) {
    forall to: Time, a: Action :: w.now <= to && a.Claim? && Enabled(w.(now := to), a) && Prompt(w.(now := to), a) ==> a.rows == []
  }

  lemma UnfinishedHasAClaim(w: World)
    requires Tidy(w) && w.inFlight == map[] && !AllFinal(w)
    ensures !NothingToClaim(w)
  {
    var wait, claim := DrainNeverSticks(w, "");
    assert Apply(w, wait) == w.(now := wait.to);
    assert Enabled(w.(now := wait.to), claim) && claim.rows != [];
  }

  lemma FlightIsNotFinal(w: World, key: AttemptKey)
    requires Tidy(w)
    ensures key in w.inFlight ==> !AllFinal(w)
  {
    if key in w.inFlight {
      assert RowTidy(w, key.delivery);
    }
  }

  lemma ClaimIsNotFinal(w: World, to: Time, a: Action)
    requires a.Claim? && Enabled(w.(now := to), a)
    ensures a.rows != [] ==> !AllFinal(w)
  {
    if a.rows != [] {
      assert a.rows[0] in a.rows;
    }
  }

  lemma FinalIsOver(w: World)
    requires Tidy(w) && AllFinal(w)
    ensures w.inFlight == map[] && NothingToClaim(w)
  {
    forall key
      ensures key !in w.inFlight
    {
      FlightIsNotFinal(w, key);
    }
    forall to: Time, a: Action | w.now <= to && a.Claim? && Enabled(w.(now := to), a) && Prompt(w.(now := to), a)
      ensures a.rows == []
    {
      ClaimIsNotFinal(w, to, a);
    }
  }

  /** A drain is over, with no claim in flight and nothing to claim ever again, if and only if everything is final. */
  lemma OverExactlyWhenFinal(w: World)
    requires Tidy(w)
    ensures w.inFlight == map[] && NothingToClaim(w) <==> AllFinal(w)
  {
    if AllFinal(w) {
      FinalIsOver(w);
    } else if w.inFlight == map[] {
      UnfinishedHasAClaim(w);
    }
  }

  /** The drain of the whole table: from the moment arrivals stop, at most the unused sum of max(1, max_attempts) rows are
      claimed and at most the work left is done, and once no claim is in flight and nothing can be claimed, however long one
      waits, every delivery is final, and not before. */
  lemma DrainEndsFinal(ws: seq<World>, acts: seq<Action>, i: nat, j: nat)
    requires PromptRun(ws, acts) && i <= j < |ws|
    requires forall k :: i <= k < j ==> Drains(acts[k])
    ensures ClaimedBetween(acts, i, j) <= Sum(AttemptBudgets(ws[i])) - Sum(AttemptCounts(ws[i]))
    ensures ClaimedBetween(acts, i, j) + ReportedBetween(acts, i, j) <= Work(ws[i])
    ensures ws[j].inFlight == map[] && NothingToClaim(ws[j]) <==> AllFinal(ws[j])
  {
    DrainIsBounded(ws, acts, i, j);
    PromptRunsAreTidy(ws, acts, j);
    OverExactlyWhenFinal(ws[j]);
  }

  /** Prompt, draining steps only. */
  ghost predicate DrainSteps(ws: seq<World>, acts: seq<Action>) {
    Segment(ws, acts) && forall k :: 0 <= k < |acts| ==> Drains(acts[k]) && Prompt(ws[k], acts[k])
  }

  lemma DrainStepsJoin(ws: seq<World>, acts: seq<Action>, ws': seq<World>, acts': seq<Action>)
    requires DrainSteps(ws, acts) && DrainSteps(ws', acts') && ws'[0] == ws[|acts|]
    ensures DrainSteps(ws + ws'[1..], acts + acts')
  {
    Joined(ws, acts, ws', acts');
    var all, steps := ws + ws'[1..], acts + acts';
    forall k | 0 <= k < |steps|
      ensures Drains(steps[k]) && Prompt(all[k], steps[k])
    {
      if k < |acts| {
        assert steps[k] == acts[k] && all[k] == ws[k];
      } else {
        assert steps[k] == acts'[k - |acts|] && all[k] == ws'[k - |acts|];
      }
    }
  }

  ghost predicate OnlyOutcome(acts: seq<Action>, outcome: ResultStatus) {
    forall k :: 0 <= k < |acts| && acts[k].Report? ==> acts[k].result == outcome
  }

  /** A drain, all of whose reports have one outcome, leads from `w` to `end`. */
  ghost predicate DrainsTo(w: World, end: World, outcome: ResultStatus) {
    exists ws, acts :: DrainSteps(ws, acts) && OnlyOutcome(acts, outcome) && ws[0] == w && ws[|acts|] == end
  }

  lemma DrainsOn(a: World, b: World, c: World, outcome: ResultStatus)
    requires DrainsTo(a, b, outcome) && DrainsTo(b, c, outcome)
    ensures DrainsTo(a, c, outcome)
  {
    var ws, acts :| DrainSteps(ws, acts) && OnlyOutcome(acts, outcome) && ws[0] == a && ws[|acts|] == b;
    var ws', acts' :| DrainSteps(ws', acts') && OnlyOutcome(acts', outcome) && ws'[0] == b && ws'[|acts'|] == c;
    DrainStepsJoin(ws, acts, ws', acts');
    var all, steps := ws + ws'[1..], acts + acts';
    assert OnlyOutcome(steps, outcome);
    assert all[0] == a && all[|steps|] == c;
  }

  lemma OneDrainStep(w: World, a: Action, outcome: ResultStatus)
    requires Enabled(w, a) && Prompt(w, a) && Drains(a) && (a.Report? ==> a.result == outcome)
    ensures DrainsTo(w, Apply(w, a), outcome)
  {
    var ws, acts := [w, Apply(w, a)], [a];
    assert DrainSteps(ws, acts) && OnlyOutcome(acts, outcome);
  }

  lemma StepLeavesWork(w: World, a: Action)
    requires Tidy(w) && Enabled(w, a) && Prompt(w, a) && Drains(a)
    ensures Tidy(Apply(w, a)) && 0 <= Work(Apply(w, a)) && Work(Apply(w, a)) == Work(w) - Claimed(a) - One(a.Report?)
  {
    PromptStepKeepsTidy(w, a);
    DrainUsesWork(w, a);
    WorkIsBounded(Apply(w, a));
  }

  lemma StepTaken(w: World, a: Action, outcome: ResultStatus) returns (w': World)
    requires Tidy(w) && Enabled(w, a) && Prompt(w, a) && Drains(a) && (a.Report? ==> a.result == outcome)
    ensures DrainsTo(w, w', outcome) && Tidy(w')
    ensures 0 <= Work(w') && Work(w') == Work(w) - Claimed(a) - One(a.Report?)
  {
    OneDrainStep(w, a, outcome);
    StepLeavesWork(w, a);
    w' := Apply(w, a);
  }

  lemma ClaimAfterWaiting(w: World, outcome: ResultStatus) returns (w1: World, claim: Action)
    requires Tidy(w) && !AllFinal(w) && w.inFlight == map[]
    ensures DrainsTo(w, w1, outcome) && Tidy(w1) && Work(w1) == Work(w)
    ensures claim.Claim? && Enabled(w1, claim) && Prompt(w1, claim) && Claimed(claim) == 1
  {
    var wait;
    wait, claim := DrainNeverSticks(w, "");
    OneDrainStep(w, wait, outcome);
    StepLeavesWork(w, wait);
    w1 := Apply(w, wait);
  }

  /** While something is not final a drain goes on: it records a claim in flight, or waits and claims. */
  lemma DrainGoesOn(w: World, outcome: ResultStatus) returns (end: World)
    requires Tidy(w) && !AllFinal(w)
    ensures DrainsTo(w, end, outcome) && Tidy(end) && 0 <= Work(end) && Work(end) < Work(w)
  {
    if w.inFlight == map[] {
      var w1, claim := ClaimAfterWaiting(w, outcome);
      end := StepTaken(w1, claim, outcome);
      DrainsOn(w, w1, end, outcome);
    } else {
      var key :| key in w.inFlight;
      end := StepTaken(w, Report(key, outcome, 0, 0, 0), outcome);
    }
  }

  /** And it can always be finished: from any tidy world some prompt drain makes every delivery final, even if every report
      has the same outcome, whichever that is. */
  lemma {:induction false} DrainCanFinish(w: World, outcome: ResultStatus) returns (end: World)
    requires Tidy(w)
    ensures DrainsTo(w, end, outcome) && AllFinal(end)
    decreases Work(w)
  {
    WorkIsBounded(w);
    if AllFinal(w) {
      end := w;
      assert DrainSteps([w], []) && OnlyOutcome([], outcome) && [w][0] == w;
    } else {
      var w1 := DrainGoesOn(w, outcome);
      end := DrainCanFinish(w1, outcome);
      DrainsOn(w, w1, end, outcome);
    }
  }
}
