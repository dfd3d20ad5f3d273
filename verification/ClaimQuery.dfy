/** The claim query of delivery-service/internal/delivery/repository.go: it always has an answer, it is a least
    batch, and two claims never share a row. */
module ClaimQuery {
  import opened Basics
  import opened DeliveryModel
  import opened DeliveryTables
  import opened DeliveryLaws

  /** The rows a claim may choose from: those that are due and not locked. */
  ghost function EligibleRows(deliveries: map<Uuid, Delivery>, locked: set<Uuid>, now: Time): set<Uuid> {
    set id | id in deliveries && id !in locked && DueNow(deliveries[id], now)
  }

  lemma {:induction false} LeastRow(deliveries: map<Uuid, Delivery>, rows: set<Uuid>) returns (least: Uuid)
    requires rows != {} && rows <= deliveries.Keys
    ensures least in rows && forall id :: id in rows ==> NotAfter(deliveries[least], deliveries[id])
  {
    least :| least in rows;
    if rows != {least} {
      var other := LeastRow(deliveries, rows - {least});
      if !NotAfter(deliveries[least], deliveries[other]) {
        least := other;
      }
    }
  }

  /** Every table has an answer for every limit. */
  lemma {:induction false} AnswerExists(deliveries: map<Uuid, Delivery>, locked: set<Uuid>, now: Time, limit: nat) returns (rows: seq<Uuid>)
    ensures ClaimAnswer(deliveries, locked, now, limit, rows)
  {
    rows := [];
    if limit > 0 {
      rows := AnswerExists(deliveries, locked, now, limit - 1);
      var left := set id | id in deliveries && id !in locked && Eligible(deliveries[id], now) && id !in rows;
      assert forall id :: id in deliveries && id !in locked && Eligible(deliveries[id], now) && id !in rows ==> id in left;
      if left != {} && |rows| == limit - 1 {
        var next := LeastRow(deliveries, left);
        ExtendAnswer(deliveries, locked, now, limit - 1, rows, left, next);
        rows := rows + [next];
      }
    }
  }

  lemma ExtendAnswer(deliveries: map<Uuid, Delivery>, locked: set<Uuid>, now: Time, limit: nat, rows: seq<Uuid>, left: set<Uuid>, next: Uuid)
    requires ClaimAnswer(deliveries, locked, now, limit, rows) && |rows| == limit
    requires left == set id | id in deliveries && id !in locked && Eligible(deliveries[id], now) && id !in rows
    requires next in left && forall id :: id in left ==> NotAfter(deliveries[next], deliveries[id])
    ensures ClaimAnswer(deliveries, locked, now, limit + 1, rows + [next])
  {
    var longer := rows + [next];
    forall i, j | 0 <= i < j < |longer|
      ensures longer[i] != longer[j] && NotAfter(deliveries[longer[i]], deliveries[longer[j]])
    {
      assert longer[i] == rows[i] && rows[i] in rows;
    }
    forall id | id in deliveries && id !in locked && Eligible(deliveries[id], now) && id !in longer
      ensures |longer| == limit + 1 && forall r :: r in longer ==> NotAfter(deliveries[r], deliveries[id])
    {
      assert id in left;
    }
  }

  /** A claim takes min(limit, eligible) rows, and no eligible row it leaves behind sorts strictly before one it takes. */
  lemma ClaimTakesTheLeast(deliveries: map<Uuid, Delivery>, locked: set<Uuid>, now: Time, limit: nat, rows: seq<Uuid>)
    requires ClaimAnswer(deliveries, locked, now, limit, rows)
    ensures var eligible := EligibleRows(deliveries, locked, now);
            && |rows| == Min(limit, |eligible|)
            && (forall r :: r in rows ==> r in eligible)
            && (forall r, id :: r in rows && id in eligible && id !in rows ==>
                  || deliveries[r].nextAttemptAt < deliveries[id].nextAttemptAt
                  || (deliveries[r].nextAttemptAt == deliveries[id].nextAttemptAt && deliveries[r].createdAt <= deliveries[id].createdAt))
  {
    var eligible := EligibleRows(deliveries, locked, now);
    var taken := Elements(rows);
    DistinctCard(rows);
    SubsetIsSmaller(taken, eligible);
    if |rows| < limit {
      assert forall id :: id in eligible ==> id in rows;
      assert taken == eligible;
    }
  }

  /** Two claims made within a lease of each other share no row, whoever makes them and whatever is locked. */
  lemma ClaimsAreDisjoint(deliveries: map<Uuid, Delivery>, locked: set<Uuid>, now: Time, limit: nat, rows: seq<Uuid>,
                          worker: string, workerNow: Time,
                          locked': set<Uuid>, now': Time, limit': nat, rows': seq<Uuid>)
    requires ClaimAnswer(deliveries, locked, now, limit, rows)
    requires var taken := Elements(rows); ClaimAnswer(LeaseRows(deliveries, taken, worker, workerNow, now), locked', now', limit', rows')
    ensures now' <= workerNow + LEASE ==> (forall r :: r in rows' ==> r !in rows)
    // The bound is exact: past it, a claim without a limit takes over every row of the first, unless locked.
    ensures now' > workerNow + LEASE && limit' >= |deliveries| ==> (forall r :: r in rows && r !in locked' ==> r in rows')
  {
    var taken := Elements(rows);
    var after := LeaseRows(deliveries, taken, worker, workerNow, now);
    if now' > workerNow + LEASE && limit' >= |deliveries| {
      forall r | r in rows && r !in locked'
        ensures r in rows'
      {
        if r !in rows' {
          assert Eligible(after[r], now');
          DistinctCard(rows');
          var taken' := Elements(rows');
          assert |taken' + {r}| == |taken'| + 1 == |rows'| + 1 == limit' + 1;
          assert after.Keys == deliveries.Keys;
          SubsetIsSmaller(taken' + {r}, after.Keys);
          assert false;
        }
      }
    }
  }
}
