/** The classes and the worlds meet: one tick of a worker, carried out by the methods of the repository and the service,
    is a run of steps of `DeliverySystem`. */
module DeliveryTicks {
  import opened Basics
  import opened DeliveryModel
  import opened DeliveryTables
  import opened DeliverySystem
  import opened DeliveryOutcomes
  import R = DeliveryRepositories

  /** What one claimed delivery comes to: its attempt is on record and its row moved, or the claim is lost. */
  ghost predicate CameTo(w: World, copy: Delivery, decrypts: bool, result: ResultStatus) {
    var key := CopyKey(copy);
    && key.delivery in w.db.deliveries
    && if decrypts
       then key in w.db.attempts && w.db.attempts[key].status == result && w.db.deliveries[key.delivery].status == NextStatus(copy, result)
       else key in w.seen.lost && w.db.deliveries[key.delivery].status == InProgress
  }

  /** A worker holds `copy` and its row is as the claim left it. */
  ghost predicate Holds(w: World, copy: Delivery) {
    && CopyKey(copy) in w.inFlight && w.inFlight[CopyKey(copy)] == copy
    && copy.id in w.db.deliveries && w.db.deliveries[copy.id].status == InProgress
  }

  lemma ClaimedAreHeld(w: World, a: Action)
    requires Inv(w) && a.Claim? && Enabled(w, a)
    ensures forall id :: id in a.rows ==> Holds(Apply(w, a), ClaimedCopy(w.db.deliveries[id], a.workerNow))
  {
    forall id | id in a.rows
      ensures Holds(Apply(w, a), ClaimedCopy(w.db.deliveries[id], a.workerNow))
    {
      var key := ClaimKey(w.db.deliveries, id);
      CopiesHas(w.db.deliveries, Elements(a.rows), a.workerNow, key);
      assert key == CopyKey(ClaimedCopy(w.db.deliveries[id], a.workerNow));
    }
  }

  /** The step of the world for one delivery of the batch. */
  ghost function DeliveryStep(copy: Delivery, decrypts: bool, result: ResultStatus, retryAt: Time, latency: Time, workerNow: Time): Action {
    if decrypts then Report(CopyKey(copy), result, retryAt, latency, workerNow) else Lose({CopyKey(copy)})
  }

  lemma DeliveryStepComesTo(w: World, copy: Delivery, decrypts: bool, result: ResultStatus, retryAt: Time, latency: Time, workerNow: Time)
    requires Inv(w) && Holds(w, copy)
    ensures var a := DeliveryStep(copy, decrypts, result, retryAt, latency, workerNow);
            && Enabled(w, a) && Inv(Apply(w, a)) && Evolves(w.db, Apply(w, a).db)
            && CameTo(Apply(w, a), copy, decrypts, result)
            && OthersStay(w, Apply(w, a), copy.id)
            && (decrypts ==> RecordAttempt(w.db, copy, result, RetryTime(copy, result, retryAt), latency, workerNow, w.now) == Ok(Apply(w, a).db))
            && (!decrypts ==> Apply(w, a).db == w.db)
  {
    var a := DeliveryStep(copy, decrypts, result, retryAt, latency, workerNow);
    StepKeepsInv(w, a);
    StepEvolves(w, a);
    if decrypts {
      ReportComesTo(w, copy, result, retryAt, latency, workerNow);
    }
  }

  lemma ReportComesTo(w: World, copy: Delivery, result: ResultStatus, retryAt: Time, latency: Time, workerNow: Time)
    requires Inv(w) && Holds(w, copy)
    ensures var w' := Apply(w, Report(CopyKey(copy), result, retryAt, latency, workerNow));
            && CameTo(w', copy, true, result) && OthersStay(w, w', copy.id)
            && RecordAttempt(w.db, copy, result, RetryTime(copy, result, retryAt), latency, workerNow, w.now) == Ok(w'.db)
  {
    ReportIsAccepted(w, CopyKey(copy), result, retryAt, latency, workerNow);
    EffectComesTo(w, Apply(w, Report(CopyKey(copy), result, retryAt, latency, workerNow)), copy, result);
  }

  lemma EffectComesTo(w: World, w': World, copy: Delivery, result: ResultStatus)
    requires Holds(w, copy) && ReportEffect(w, w', CopyKey(copy), result)
    ensures CameTo(w', copy, true, result) && OthersStay(w, w', copy.id)
  {
  }

  /** Nothing about deliveries other than `id` changes. */
  ghost predicate OthersStay(w: World, w': World, id: Uuid) {
    && w'.now == w.now
    && (forall x :: x in w.db.deliveries && x != id ==> x in w'.db.deliveries && w'.db.deliveries[x] == w.db.deliveries[x])
    && (forall key :: key in w.inFlight && key.delivery != id ==> key in w'.inFlight && w'.inFlight[key] == w.inFlight[key])
    && (forall key :: key in w.db.attempts && key.delivery != id ==> key in w'.db.attempts && w'.db.attempts[key] == w.db.attempts[key])
    && (forall key :: key in w.seen.lost ==> key in w'.seen.lost)
  }

  lemma OthersKeepTheirs(w: World, w': World, id: Uuid, copy: Delivery, decrypts: bool, result: ResultStatus)
    requires OthersStay(w, w', id) && copy.id != id
    ensures Holds(w, copy) ==> Holds(w', copy)
    ensures CameTo(w, copy, decrypts, result) ==> CameTo(w', copy, decrypts, result)
  {
  }

  /** How far a worker is with its batch: the first `n` deliveries have come to something, the rest it still holds. */
  ghost predicate Progress(w: World, claimed: seq<Delivery>, decrypts: seq<bool>, results: seq<ResultStatus>, n: nat)
    requires |decrypts| == |results| == |claimed|
  {
    && (forall k :: 0 <= k < n && k < |claimed| ==> CameTo(w, claimed[k], decrypts[k], results[k]))
    && (forall k :: n <= k < |claimed| ==> Holds(w, claimed[k]))
  }

  lemma OneFurther(w: World, w': World, claimed: seq<Delivery>, decrypts: seq<bool>, results: seq<ResultStatus>, n: nat)
    requires |decrypts| == |results| == |claimed| && n < |claimed|
    requires forall i, j :: 0 <= i < j < |claimed| ==> claimed[i].id != claimed[j].id
    requires Progress(w, claimed, decrypts, results, n)
    requires OthersStay(w, w', claimed[n].id) && CameTo(w', claimed[n], decrypts[n], results[n])
    ensures Progress(w', claimed, decrypts, results, n + 1)
  {
    forall k | 0 <= k < |claimed| && k != n
      ensures Holds(w, claimed[k]) ==> Holds(w', claimed[k])
      ensures CameTo(w, claimed[k], decrypts[k], results[k]) ==> CameTo(w', claimed[k], decrypts[k], results[k])
    {
      OthersKeepTheirs(w, w', claimed[n].id, claimed[k], decrypts[k], results[k]);
    }
  }

  lemma ClaimStep(w: World, a: Action) returns (w': World)
    requires Inv(w) && a.Claim? && Enabled(w, a)
    ensures w' == Apply(w, a) && Inv(w') && Evolves(w.db, w'.db) && w'.now == w.now
    ensures forall id :: id in a.rows ==> id in w.db.deliveries && w.db.deliveries[id].id == id
    ensures w'.db == Tables(LeaseRows(w.db.deliveries, Elements(a.rows), a.worker, a.workerNow, w.now), w.db.attempts)
    ensures forall id :: id in a.rows ==> Holds(w', ClaimedCopy(w.db.deliveries[id], a.workerNow))
  {
    ClaimedAreHeld(w, a);
    StepKeepsInv(w, a);
    StepEvolves(w, a);
    w' := Apply(w, a);
  }

  lemma Extended(ws: seq<World>, acts: seq<Action>, a: Action, w': World)
    requires Segment(ws, acts) && Enabled(ws[|acts|], a) && w' == Apply(ws[|acts|], a)
    ensures Segment(ws + [w'], acts + [a])
  {
    assert Segment([ws[|acts|], w'], [a]);
    Joined(ws, acts, [ws[|acts|], w'], [a]);
    assert [ws[|acts|], w'][1..] == [w'];
  }

  /** Claiming through the repository brings the tables where the step of the world brings them, and hands out what the
      worker then holds. */
  method ClaimOnce(repo: R.Repository, worker: string, limit: nat, lease: Time, locked: set<Uuid>, rows: seq<Uuid>, now: Time, workerNow: Time,
                   ghost w: World, ghost w': World)
    returns (claimed: seq<Delivery>)
    requires repo.Rows() == w.db && ClaimAnswer(w.db.deliveries, locked, now, limit, rows)
    requires forall id :: id in rows ==> w.db.deliveries[id].id == id
    requires w'.db == Tables(LeaseRows(w.db.deliveries, Elements(rows), worker, workerNow, now), w.db.attempts)
    requires forall id :: id in rows ==> Holds(w', ClaimedCopy(w.db.deliveries[id], workerNow))
    modifies repo
    ensures repo.Rows() == w'.db && |claimed| == |rows|
    ensures forall i :: 0 <= i < |rows| ==> claimed[i].id == rows[i] && Holds(w', claimed[i])
  {
    claimed := repo.ClaimBatch(worker, limit, lease, locked, rows, now, workerNow);
    forall i | 0 <= i < |rows|
      ensures claimed[i].id == rows[i] && Holds(w', claimed[i])
    {
      assert rows[i] in rows;
    }
  }

  /** Delivering through the service is a step of the world that concerns the one delivery. */
  method DeliverOnce(service: R.Service, copy: Delivery, decrypts: bool, result: ResultStatus, retryAt: Time, latency: Time, now: Time, workerNow: Time, ghost w: World)
    returns (err: Option<R.ServiceError>, ghost w': World)
    requires Inv(w) && service.repo.Rows() == w.db && w.now == now && Holds(w, copy)
    modifies service.repo
    ensures var a := DeliveryStep(copy, decrypts, result, retryAt, latency, workerNow); Enabled(w, a) && w' == Apply(w, a)
    ensures Inv(w') && service.repo.Rows() == w'.db && Evolves(w.db, w'.db)
    ensures OthersStay(w, w', copy.id) && CameTo(w', copy, decrypts, result)
    ensures err == if decrypts then None else Some(R.DecryptFailed)
  {
    DeliveryStepComesTo(w, copy, decrypts, result, retryAt, latency, workerNow);
    w' := Apply(w, DeliveryStep(copy, decrypts, result, retryAt, latency, workerNow));
    err := service.Deliver(copy, decrypts, result, retryAt, latency, workerNow, now);
  }

  method DeliverAll(service: R.Service, claimed: seq<Delivery>, decrypts: seq<bool>, results: seq<ResultStatus>, retryAt: seq<Time>,
                    latency: Time, now: Time, workerNow: Time, ghost w: World)
    returns (ghost ws: seq<World>, ghost acts: seq<Action>)
    requires Inv(w) && service.repo.Rows() == w.db && w.now == now
    requires |decrypts| == |results| == |retryAt| == |claimed|
    requires forall i, j :: 0 <= i < j < |claimed| ==> claimed[i].id != claimed[j].id
    requires forall i :: 0 <= i < |claimed| ==> Holds(w, claimed[i])
    modifies service.repo
    ensures Segment(ws, acts) && ws[0] == w && |acts| == |claimed|
    ensures service.repo.Rows() == ws[|acts|].db
    ensures forall i :: 0 <= i < |claimed| ==> CameTo(ws[|acts|], claimed[i], decrypts[i], results[i])
  {
    ghost var w' := w;
    ws, acts := [w], [];
    for i := 0 to |claimed|
      invariant Segment(ws, acts) && ws[0] == w && |acts| == i && w' == ws[|acts|]
      invariant Inv(w') && service.repo.Rows() == w'.db && w'.now == now
      invariant Progress(w', claimed, decrypts, results, i)
    {
      ghost var before := w';
      var err;
      err, w' := DeliverOnce(service, claimed[i], decrypts[i], results[i], retryAt[i], latency, now, workerNow, before);
      OneFurther(before, w', claimed, decrypts, results, i);
      Extended(ws, acts, DeliveryStep(claimed[i], decrypts[i], results[i], retryAt[i], latency, workerNow), w');
      ws, acts := ws + [w'], acts + [DeliveryStep(claimed[i], decrypts[i], results[i], retryAt[i], latency, workerNow)];
    }
  }

  lemma ClaimFirst(w: World, a: Action, w': World, ws: seq<World>, acts: seq<Action>) returns (all: seq<World>)
    requires Enabled(w, a) && w' == Apply(w, a) && Segment(ws, acts) && ws[0] == w'
    ensures Segment(all, [a] + acts) && all[0] == w && |[a] + acts| == |acts| + 1 && all[|acts| + 1] == ws[|acts|]
  {
    all := [w, w'] + ws[1..];
    assert Segment([w, w'], [a]);
    Joined([w, w'], [a], ws, acts);
  }

  /** One tick of one worker, without interference: claim a batch, deliver each of it. It takes the world through one
      step for the claim and one for each delivery. In a world that satisfies the invariant no delivery is rejected, every
      attempt is recorded with its outcome, and every row moves to the status that outcome calls for. */
  method RunTick(service: R.Service, worker: string, limit: nat, lease: Time, locked: set<Uuid>, rows: seq<Uuid>,
                 decrypts: seq<bool>, results: seq<ResultStatus>, retryAt: seq<Time>, latency: Time, now: Time, workerNow: Time, ghost w: World)
    returns (claimed: seq<Delivery>, ghost ws: seq<World>, ghost acts: seq<Action>)
    requires Inv(w) && service.repo.Rows() == w.db && w.now == now
    requires ClaimAnswer(w.db.deliveries, locked, now, limit, rows)
    requires |decrypts| == |results| == |retryAt| == |rows|
    modifies service.repo
    ensures Segment(ws, acts) && ws[0] == w && |acts| == |rows| + 1
    ensures service.repo.Rows() == ws[|acts|].db
    ensures |claimed| == |rows| && forall i :: 0 <= i < |rows| ==> claimed[i].id == rows[i]
    ensures forall i :: 0 <= i < |rows| ==> CameTo(ws[|acts|], claimed[i], decrypts[i], results[i])
  {
    ghost var claim := Claim(worker, limit, locked, rows, workerNow);
    ghost var w' := ClaimStep(w, claim);
    claimed := ClaimOnce(service.repo, worker, limit, lease, locked, rows, now, workerNow, w, w');
    ws, acts := DeliverAll(service, claimed, decrypts, results, retryAt, latency, now, workerNow, w');
    ws := ClaimFirst(w, claim, w', ws, acts);
    acts := [claim] + acts;
  }
}
