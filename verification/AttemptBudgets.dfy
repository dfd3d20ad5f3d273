/** How many attempts a delivery can use up when workers stall, crash and report late. */
module AttemptBudgets {
  import opened Basics
  import opened DeliveryModel
  import opened DeliveryTables
  import opened DeliverySystem
  import opened DeliveryOutcomes

  /** Every claim but the first started from RETRYING or took over an expired lease, and every arrival in RETRYING
      has its own recorded attempt, numbered below max_attempts. */
  ghost predicate Budgeted(w: World) {
    && (forall key :: key in w.seen.takeovers ==> Counted(w, key))
    && (forall key :: key in w.seen.movers ==>
          key in w.db.attempts && key.delivery in w.db.deliveries
          && 1 <= key.number < w.db.deliveries[key.delivery].snapshot.retryPolicy.maxAttempts)
    && (forall id :: id in w.db.deliveries ==> RowBudgeted(w, id))
  }

  ghost predicate RowBudgeted(w: World, id: Uuid)
    requires id in w.db.deliveries
  {
    var d := w.db.deliveries[id];
    d.attemptCount + One(d.status == Retrying)
      == One(d.status != Pending) + |Of(w.seen.movers, id)| + |Of(w.seen.takeovers, id)|
  }

  lemma ClaimKeepsRowBudget(w: World, a: Action, id: Uuid)
    requires Inv(w) && Budgeted(w) && a.Claim? && Enabled(w, a) && id in w.db.deliveries
    ensures RowBudgeted(Apply(w, a), id)
  {
    var w' := Apply(w, a);
    assert RowBudgeted(w, id) && RowShape(w.db.deliveries[id]);
    StepAddsTakeover(w, a, id);
    assert Of(w'.seen.movers, id) == Of(w.seen.movers, id);
  }

  lemma ClaimKeepsKeys(w: World, a: Action)
    requires Inv(w) && Budgeted(w) && a.Claim? && Enabled(w, a)
    ensures var w' := Apply(w, a);
            && (forall key :: key in w'.seen.takeovers ==> Counted(w', key))
            && w'.seen.movers == w.seen.movers && w'.db.attempts == w.db.attempts
            && (forall id :: id in w'.db.deliveries <==> id in w.db.deliveries)
            && (forall id :: id in w.db.deliveries ==> w'.db.deliveries[id].snapshot == w.db.deliveries[id].snapshot)
  {
    var w' := Apply(w, a);
    StepEvolves(w, a);
    forall key | key in w'.seen.takeovers
      ensures Counted(w', key)
    {
      if key in w.seen.takeovers {
        assert Counted(w, key);
      } else {
        assert key == ClaimKey(w.db.deliveries, key.delivery) && RowShape(w.db.deliveries[key.delivery]);
      }
    }
  }

  lemma ClaimKeepsBudget(w: World, a: Action)
    requires Inv(w) && Budgeted(w) && a.Claim? && Enabled(w, a)
    ensures Budgeted(Apply(w, a))
  {
    var w' := Apply(w, a);
    ClaimKeepsKeys(w, a);
    forall id | id in w'.db.deliveries
      ensures RowBudgeted(w', id)
    {
      ClaimKeepsRowBudget(w, a, id);
    }
  }

  lemma ReportKeepsRowBudget(w: World, w': World, key: AttemptKey, result: ResultStatus, id: Uuid)
    requires key in w.inFlight && key.delivery in w.db.deliveries && ReportEffect(w, w', key, result)
    requires id in w.db.deliveries && RowShape(w.db.deliveries[id]) && RowBudgeted(w, id) && key !in w.seen.movers
    ensures RowBudgeted(w', id)
  {
    var row, row' := w.db.deliveries[id], w'.db.deliveries[id];
    assert w'.seen.takeovers == w.seen.takeovers;
    if id != key.delivery || row.status != InProgress {
      assert row' == row;
      assert Of(w'.seen.movers, id) == Of(w.seen.movers, id);
    } else if w'.seen.movers == w.seen.movers + {key} {
      assert row'.status == Retrying;
      assert Of(w'.seen.movers, id) == Of(w.seen.movers, id) + {key};
    } else {
      assert row'.status != Retrying && row'.status != Pending;
      assert Of(w'.seen.movers, id) == Of(w.seen.movers, id);
    }
  }

  lemma ReportKeepsBudget(w: World, a: Action)
    requires Inv(w) && Budgeted(w) && a.Report? && Enabled(w, a)
    ensures Budgeted(Apply(w, a))
  {
    var w' := Apply(w, a);
    ReportIsAccepted(w, a.key, a.result, a.retryAt, a.latency, a.workerNow);
    RowMovesKeepBudget(w, w', a.key, a.result);
  }

  lemma RowMovesKeepBudget(w: World, w': World, key: AttemptKey, result: ResultStatus)
    requires Shaped(w) && CopiesAgree(w) && OneOriginal(w.db.deliveries) && Counted(w, key) && Budgeted(w)
    requires key in w.inFlight && key.delivery in w.db.deliveries && ReportEffect(w, w', key, result)
    ensures Budgeted(w')
  {
    ReportKeepsRows(w, w', key, result);
    assert CopyKey(w.inFlight[key]) == key;
    assert OrderOf(w.inFlight[key]) == OrderOf(w.db.deliveries[key.delivery]);
    forall id | id in w'.db.deliveries
      ensures RowBudgeted(w', id)
    {
      ReportKeepsRowBudget(w, w', key, result, id);
    }
  }

  lemma QuietStepKeepsBudget(w: World, a: Action)
    requires Inv(w) && Budgeted(w) && Enabled(w, a) && !a.Claim? && !a.Report?
    ensures Budgeted(Apply(w, a))
  {
    var w' := Apply(w, a);
    StepEvolves(w, a);
    assert w'.seen.movers == w.seen.movers && w'.seen.takeovers == w.seen.takeovers;
    NewRowsArePending(w, a);
    forall id | id in w'.db.deliveries
      ensures RowBudgeted(w', id)
    {
      if id in w.db.deliveries {
        assert RowBudgeted(w, id);
      } else {
        assert Of(w.seen.movers, id) == {} && Of(w.seen.takeovers, id) == {};
      }
    }
  }

  lemma NewRowsArePending(w: World, a: Action)
    requires Inv(w) && Enabled(w, a) && !a.Claim? && !a.Report?
    ensures forall id :: id in Apply(w, a).db.deliveries && id in w.db.deliveries ==>
              Apply(w, a).db.deliveries[id] == w.db.deliveries[id]
    ensures forall id :: id in Apply(w, a).db.deliveries && id !in w.db.deliveries ==>
              Apply(w, a).db.deliveries[id].status == Pending && Apply(w, a).db.deliveries[id].attemptCount == 0
  {
    if a.Accept? {
      FanOutAdds(w.db.deliveries, a.event, a.eps, a.ids, w.now);
    }
  }

  lemma StepKeepsBudget(w: World, a: Action)
    requires Inv(w) && Budgeted(w) && Enabled(w, a)
    ensures Budgeted(Apply(w, a))
  {
    if a.Claim? {
      ClaimKeepsBudget(w, a);
    } else if a.Report? {
      ReportKeepsBudget(w, a);
    } else {
      QuietStepKeepsBudget(w, a);
    }
  }

  lemma {:induction false} BudgetAlways(ws: seq<World>, acts: seq<Action>, i: nat)
    requires Run(ws, acts) && i < |ws|
    ensures Budgeted(ws[i])
  {
    if i > 0 {
      BudgetAlways(ws, acts, i - 1);
      InvAlways(ws, acts, i - 1);
      StepKeepsBudget(ws[i - 1], acts[i - 1]);
    }
  }

  /** How often, in the first `i` steps, a worker claimed `id` while it was still IN_PROGRESS. */
  ghost function TakeoverCount(ws: seq<World>, acts: seq<Action>, i: nat, id: Uuid): nat
    requires Run(ws, acts) && i < |ws|
  {
    if i == 0 then 0
    else
      var w, a := ws[i - 1], acts[i - 1];
      TakeoverCount(ws, acts, i - 1, id)
      + One(a.Claim? && id in a.rows && id in w.db.deliveries && w.db.deliveries[id].status == InProgress)
  }

  /** A step adds one takeover of `id` if it claims `id` while IN_PROGRESS, and none otherwise. */
  lemma StepAddsTakeover(w: World, a: Action, id: Uuid)
    requires Inv(w) && Budgeted(w) && Enabled(w, a)
    ensures |Of(Apply(w, a).seen.takeovers, id)| == |Of(w.seen.takeovers, id)|
              + One(a.Claim? && id in a.rows && id in w.db.deliveries && w.db.deliveries[id].status == InProgress)
  {
    if a.Claim? {
      ClaimAddsTakeover(w, a, id);
    } else if a.Report? {
      ReportIsAccepted(w, a.key, a.result, a.retryAt, a.latency, a.workerNow);
    }
  }

  lemma ClaimAddsTakeover(w: World, a: Action, id: Uuid)
    requires Budgeted(w) && a.Claim? && Enabled(w, a)
    ensures |Of(Apply(w, a).seen.takeovers, id)| == |Of(w.seen.takeovers, id)|
              + One(id in a.rows && id in w.db.deliveries && w.db.deliveries[id].status == InProgress)
  {
    var after := w.seen.takeovers + Takeovers(w.db.deliveries, Elements(a.rows));
    if id in a.rows && w.db.deliveries[id].status == InProgress {
      var key := ClaimKey(w.db.deliveries, id);
      assert id in Elements(a.rows);
      assert key in Takeovers(w.db.deliveries, Elements(a.rows)) && key !in w.seen.takeovers;
      assert Of(after, id) == Of(w.seen.takeovers, id) + {key};
    } else {
      assert Of(after, id) == Of(w.seen.takeovers, id);
    }
  }

  lemma {:induction false} TakeoversAreCounted(ws: seq<World>, acts: seq<Action>, i: nat, id: Uuid)
    requires Run(ws, acts) && i < |ws|
    ensures |Of(ws[i].seen.takeovers, id)| == TakeoverCount(ws, acts, i, id)
  {
    if i == 0 {
      assert Of(ws[0].seen.takeovers, id) == {};
    } else {
      TakeoversAreCounted(ws, acts, i - 1, id);
      InvAlways(ws, acts, i - 1);
      BudgetAlways(ws, acts, i - 1);
      StepAddsTakeover(ws[i - 1], acts[i - 1], id);
    }
  }

  lemma MoversAreFew(w: World, id: Uuid)
    requires Budgeted(w) && id in w.db.deliveries
    ensures var allowed := w.db.deliveries[id].snapshot.retryPolicy.maxAttempts;
            |Of(w.seen.movers, id)| <= if allowed > 1 then allowed - 1 else 0
  {
    var movers := Of(w.seen.movers, id);
    var numbers := set key | key in movers :: key.number;
    NumbersCard(movers, numbers, id);
    Pigeonhole(numbers, AttemptBudget(w.db.deliveries[id]) - 1);
  }

  lemma {:induction false} NumbersCard(keys: set<AttemptKey>, numbers: set<int>, id: Uuid)
    requires forall key :: key in keys ==> key.delivery == id
    requires numbers == set key | key in keys :: key.number
    ensures |numbers| == |keys|
  {
    if keys == {} {
      assert numbers == {};
    } else {
      var key :| key in keys;
      NumbersCard(keys - {key}, numbers - {key.number}, id);
    }
  }

  /** The attempt budget under takeovers: whatever the interleaving, a delivery is claimed at most max(1, max_attempts)
      times plus once for each time a claim took over an expired lease. */
  lemma AttemptBudgetHolds(ws: seq<World>, acts: seq<Action>, i: nat, id: Uuid)
    requires Run(ws, acts) && i < |ws| && id in ws[i].db.deliveries
    ensures var d := ws[i].db.deliveries[id]; var allowed := d.snapshot.retryPolicy.maxAttempts;
            d.attemptCount <= (if allowed > 1 then allowed else 1) + TakeoverCount(ws, acts, i, id)
  {
    BudgetAlways(ws, acts, i);
    TakeoversAreCounted(ws, acts, i, id);
    MoversAreFew(ws[i], id);
    assert RowBudgeted(ws[i], id);
  }
}
