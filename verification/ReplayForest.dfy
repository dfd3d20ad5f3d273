/** Replays form a forest: following replay_of always ends at an original, the whole chain carries one order, and a
    replayed delivery is FAILED or DLQ for ever, although a replay reads and inserts in two separate transactions. */
module ReplayForest {
  import opened Basics
  import opened DeliveryModel
  import opened DeliveryTables
  import opened DeliverySystem
  import opened DeliveryOutcomes

  /** The delivery `n` replay_of links above `id`, if the chain is that long. */
  ghost function Ancestor(deliveries: map<Uuid, Delivery>, id: Uuid, n: nat): Option<Uuid>
    decreases n
  {
    if id !in deliveries then None
    else if n == 0 then Some(id)
    else if deliveries[id].replayOf.None? then None
    else Ancestor(deliveries, deliveries[id].replayOf.value, n - 1)
  }

  ghost predicate EndsAt(deliveries: map<Uuid, Delivery>, id: Uuid, n: nat) {
    var root := Ancestor(deliveries, id, n);
    root.Some? && root.value in deliveries && deliveries[root.value].replayOf.None?
  }

  predicate FailedForGood(d: Delivery) {
    d.status == Failed || d.status == Dlq
  }

  /** A parent exists, has failed for good, and carries the same order. */
  ghost predicate ParentSound(deliveries: map<Uuid, Delivery>, id: Uuid)
    requires id in deliveries
  {
    var d := deliveries[id];
    d.replayOf.Some? ==>
      && d.replayOf.value in deliveries
      && FailedForGood(deliveries[d.replayOf.value])
      && OrderOf(deliveries[d.replayOf.value]) == OrderOf(d)
  }

  ghost predicate Rooted(deliveries: map<Uuid, Delivery>, id: Uuid) {
    exists n :: EndsAt(deliveries, id, n)
  }

  ghost predicate TreesSound(deliveries: map<Uuid, Delivery>) {
    forall id :: id in deliveries ==> ParentSound(deliveries, id) && Rooted(deliveries, id)
  }

  /** The copy a replay request has read is still what the row says. */
  ghost predicate CopySound(deliveries: map<Uuid, Delivery>, copy: Delivery) {
    copy.id in deliveries && deliveries[copy.id] == copy && FailedForGood(copy)
  }

  ghost predicate Forest(w: World) {
    TreesSound(w.db.deliveries) && forall copy :: copy in w.replays ==> CopySound(w.db.deliveries, copy)
  }

  /** Rows that stay, with the links they had, keep their chains. */
  lemma {:induction false} ChainStays(a: map<Uuid, Delivery>, b: map<Uuid, Delivery>, id: Uuid, n: nat)
    requires forall x :: x in a ==> x in b && b[x].replayOf == a[x].replayOf
    requires Ancestor(a, id, n).Some?
    ensures Ancestor(b, id, n) == Ancestor(a, id, n)
    decreases n
  {
    if n > 0 {
      ChainStays(a, b, a[id].replayOf.value, n - 1);
    }
  }

  lemma EndStays(a: map<Uuid, Delivery>, b: map<Uuid, Delivery>, id: Uuid, n: nat)
    requires forall x :: x in a ==> x in b && b[x].replayOf == a[x].replayOf
    requires EndsAt(a, id, n)
    ensures EndsAt(b, id, n)
  {
    ChainStays(a, b, id, n);
    var root := Ancestor(a, id, n).value;
    assert root in a;
  }

  lemma OldRowKeepsItsTree(a: Tables, b: Tables, id: Uuid)
    requires TreesSound(a.deliveries) && Evolves(a, b) && id in a.deliveries
    ensures id in b.deliveries && ParentSound(b.deliveries, id) && Rooted(b.deliveries, id)
  {
    assert RowEvolves(a.deliveries[id], b.deliveries[id]) && ParentSound(a.deliveries, id) && Rooted(a.deliveries, id);
    if a.deliveries[id].replayOf.Some? {
      var parent := a.deliveries[id].replayOf.value;
      assert RowEvolves(a.deliveries[parent], b.deliveries[parent]);
    }
    var n: nat :| EndsAt(a.deliveries, id, n);
    LinksStay(a, b);
    EndStays(a.deliveries, b.deliveries, id, n);
  }

  lemma LinksStay(a: Tables, b: Tables)
    requires Evolves(a, b)
    ensures forall x :: x in a.deliveries ==> x in b.deliveries && b.deliveries[x].replayOf == a.deliveries[x].replayOf
  {
    forall x | x in a.deliveries
      ensures x in b.deliveries && b.deliveries[x].replayOf == a.deliveries[x].replayOf
    {
      assert RowEvolves(a.deliveries[x], b.deliveries[x]);
    }
  }

  lemma NewRowIsRooted(a: Tables, b: Tables, id: Uuid)
    requires TreesSound(a.deliveries) && Evolves(a, b) && id in b.deliveries
    requires b.deliveries[id].replayOf.None? || b.deliveries[id].replayOf.value in a.deliveries
    ensures Rooted(b.deliveries, id)
  {
    if b.deliveries[id].replayOf.None? {
      assert EndsAt(b.deliveries, id, 0);
    } else {
      var parent := b.deliveries[id].replayOf.value;
      assert Rooted(a.deliveries, parent);
      var n: nat :| EndsAt(a.deliveries, parent, n);
      LinksStay(a, b);
      EndStays(a.deliveries, b.deliveries, parent, n);
      assert Ancestor(b.deliveries, id, n + 1) == Ancestor(b.deliveries, parent, n);
      assert EndsAt(b.deliveries, id, n + 1);
    }
  }

  ghost predicate LinksSoundly(a: Tables, b: Tables) {
    forall id :: id in b.deliveries && id !in a.deliveries ==>
      ParentSound(b.deliveries, id) && (b.deliveries[id].replayOf.None? || b.deliveries[id].replayOf.value in a.deliveries)
  }

  /** A step keeps the trees sound if the rows it adds link to no delivery or to one that has failed and whose order
      they carry. */
  lemma EvolvingKeepsTrees(a: Tables, b: Tables)
    requires TreesSound(a.deliveries) && Evolves(a, b)
    requires LinksSoundly(a, b)
    ensures TreesSound(b.deliveries)
  {
    forall id | id in b.deliveries
      ensures ParentSound(b.deliveries, id) && Rooted(b.deliveries, id)
    {
      if id in a.deliveries {
        OldRowKeepsItsTree(a, b, id);
      } else {
        NewRowIsRooted(a, b, id);
      }
    }
  }

  lemma CopiesStaySound(a: Tables, b: Tables, copies: set<Delivery>)
    requires Evolves(a, b) && forall copy :: copy in copies ==> CopySound(a.deliveries, copy)
    ensures forall copy :: copy in copies ==> CopySound(b.deliveries, copy)
  {
    forall copy | copy in copies
      ensures CopySound(b.deliveries, copy)
    {
      assert CopySound(a.deliveries, copy) && RowEvolves(a.deliveries[copy.id], b.deliveries[copy.id]);
    }
  }

  lemma AcceptLinksSoundly(w: World, a: Action)
    requires a.Accept? && Enabled(w, a)
    ensures LinksSoundly(w.db, Apply(w, a).db)
  {
    FanOutAdds(w.db.deliveries, a.event, a.eps, a.ids, w.now);
  }

  lemma ReplayLinksSoundly(w: World, a: Action)
    requires Forest(w) && a.WriteReplay? && Enabled(w, a)
    ensures LinksSoundly(w.db, Apply(w, a).db)
  {
    assert CopySound(w.db.deliveries, a.copy);
  }

  lemma ReportLinksSoundly(w: World, a: Action)
    requires Inv(w) && a.Report? && Enabled(w, a)
    ensures LinksSoundly(w.db, Apply(w, a).db)
  {
    ReportIsAccepted(w, a.key, a.result, a.retryAt, a.latency, a.workerNow);
  }

  lemma NewRowsLinkSoundly(w: World, a: Action)
    requires Inv(w) && Forest(w) && Enabled(w, a)
    ensures LinksSoundly(w.db, Apply(w, a).db)
  {
    if a.Accept? {
      AcceptLinksSoundly(w, a);
    } else if a.Report? {
      ReportLinksSoundly(w, a);
    } else if a.WriteReplay? {
      ReplayLinksSoundly(w, a);
    }
  }

  lemma StepKeepsForest(w: World, a: Action)
    requires Inv(w) && Forest(w) && Enabled(w, a)
    ensures Forest(Apply(w, a))
  {
    StepEvolves(w, a);
    NewRowsLinkSoundly(w, a);
    EvolvingKeepsTrees(w.db, Apply(w, a).db);
    CopiesStaySound(w.db, Apply(w, a).db, w.replays);
    CopiesAreRead(w, a);
  }

  lemma CopiesAreRead(w: World, a: Action)
    requires Inv(w) && Enabled(w, a)
    ensures forall copy :: copy in Apply(w, a).replays && copy !in w.replays ==> CopySound(Apply(w, a).db.deliveries, copy)
  {
    if a.ReadReplay? {
      assert w.db.deliveries[a.id].id == a.id;
    } else if a.Report? {
      ReportIsAccepted(w, a.key, a.result, a.retryAt, a.latency, a.workerNow);
    }
  }

  lemma {:induction false} ForestAlways(ws: seq<World>, acts: seq<Action>, i: nat)
    requires Run(ws, acts) && i < |ws|
    ensures Forest(ws[i])
  {
    if i > 0 {
      ForestAlways(ws, acts, i - 1);
      InvAlways(ws, acts, i - 1);
      StepKeepsForest(ws[i - 1], acts[i - 1]);
    }
  }

  // ----- what the forest means -----

  lemma {:induction false} AncestorAdds(deliveries: map<Uuid, Delivery>, id: Uuid, m: nat, n: nat)
    ensures Ancestor(deliveries, id, m + n) ==
            (if Ancestor(deliveries, id, m).Some? then Ancestor(deliveries, Ancestor(deliveries, id, m).value, n) else None)
    decreases m
  {
    if m > 0 && id in deliveries && deliveries[id].replayOf.Some? {
      AncestorAdds(deliveries, deliveries[id].replayOf.value, m - 1, n);
    }
  }

  lemma {:induction false} CycleRepeats(deliveries: map<Uuid, Delivery>, id: Uuid, n: nat, times: nat)
    requires Ancestor(deliveries, id, n) == Some(id)
    ensures Ancestor(deliveries, id, n * times) == Some(id)
  {
    if times > 0 {
      CycleRepeats(deliveries, id, n, times - 1);
      assert n * times == n * (times - 1) + n;
      AncestorAdds(deliveries, id, n * (times - 1), n);
    }
  }

  lemma RootedIsAcyclic(deliveries: map<Uuid, Delivery>, id: Uuid, end: nat, n: nat)
    requires EndsAt(deliveries, id, end) && n > 0
    ensures Ancestor(deliveries, id, n) != Some(id)
  {
    if Ancestor(deliveries, id, n) == Some(id) {
      CycleRepeats(deliveries, id, n, end + 1);
      Multiple(n, end + 1);
      PastTheEnd(deliveries, id, end, n * (end + 1));
    }
  }

  lemma Multiple(n: nat, k: nat)
    requires n > 0
    ensures n * k >= k
  {
    assert n * k == (n - 1) * k + k;
  }

  /** No delivery is its own ancestor, and the chain above each ends at exactly one original. */
  lemma ReplaysAreAcyclic(ws: seq<World>, acts: seq<Action>, i: nat, id: Uuid) returns (end: nat)
    requires Run(ws, acts) && i < |ws| && id in ws[i].db.deliveries
    ensures forall n: nat :: n > 0 ==> Ancestor(ws[i].db.deliveries, id, n) != Some(id)
    ensures forall n: nat :: EndsAt(ws[i].db.deliveries, id, n) <==> n == end
  {
    ForestAlways(ws, acts, i);
    var deliveries := ws[i].db.deliveries;
    assert Rooted(deliveries, id);
    end :| EndsAt(deliveries, id, end);
    forall n: nat | n > 0
      ensures Ancestor(deliveries, id, n) != Some(id)
    {
      RootedIsAcyclic(deliveries, id, end, n);
    }
    forall n: nat | EndsAt(deliveries, id, n)
      ensures n == end
    {
      if n < end {
        PastTheEnd(deliveries, id, n, end);
      } else if n > end {
        PastTheEnd(deliveries, id, end, n);
      }
    }
  }

  lemma PastTheEnd(deliveries: map<Uuid, Delivery>, id: Uuid, end: nat, k: nat)
    requires EndsAt(deliveries, id, end) && k > end
    ensures Ancestor(deliveries, id, k).None?
  {
    AncestorAdds(deliveries, id, end, k - end);
  }

  lemma {:induction false} SoundChain(deliveries: map<Uuid, Delivery>, id: Uuid, n: nat)
    requires TreesSound(deliveries) && Ancestor(deliveries, id, n).Some?
    ensures id in deliveries && Ancestor(deliveries, id, n).value in deliveries
    ensures OrderOf(deliveries[Ancestor(deliveries, id, n).value]) == OrderOf(deliveries[id])
    ensures n > 0 ==> FailedForGood(deliveries[Ancestor(deliveries, id, n).value])
    decreases n
  {
    if n > 0 {
      assert ParentSound(deliveries, id);
      SoundChain(deliveries, deliveries[id].replayOf.value, n - 1);
    }
  }

  /** Every delivery on a replay chain has the tenant, event, endpoint, payload and snapshot of the one it replays, and
      all but the newest are FAILED or DLQ. */
  lemma ChainsShareOneOrder(ws: seq<World>, acts: seq<Action>, i: nat, id: Uuid, n: nat)
    requires Run(ws, acts) && i < |ws| && Ancestor(ws[i].db.deliveries, id, n).Some?
    ensures var deliveries := ws[i].db.deliveries; var up := Ancestor(deliveries, id, n).value;
            && id in deliveries && up in deliveries
            && OrderOf(deliveries[up]) == OrderOf(deliveries[id])
            && (n > 0 ==> deliveries[up].status == Failed || deliveries[up].status == Dlq)
  {
    ForestAlways(ws, acts, i);
    SoundChain(ws[i].db.deliveries, id, n);
  }

  lemma ParentStays(a: Tables, b: Tables, id: Uuid)
    requires TreesSound(a.deliveries) && Evolves(a, b) && id in a.deliveries && a.deliveries[id].replayOf.Some?
    ensures var parent := a.deliveries[id].replayOf.value;
            && parent in a.deliveries && parent in b.deliveries && id in b.deliveries
            && FailedForGood(b.deliveries[parent]) && b.deliveries[parent] == a.deliveries[parent]
            && OrderOf(b.deliveries[id]) == OrderOf(a.deliveries[parent])
  {
    assert ParentSound(a.deliveries, id) && RowEvolves(a.deliveries[id], b.deliveries[id]);
    assert RowEvolves(a.deliveries[a.deliveries[id].replayOf.value], b.deliveries[a.deliveries[id].replayOf.value]);
  }

  /** Whatever happened between the read and the insert of a replay, and whatever happens later, the delivery that was
      replayed is FAILED or DLQ, and each of its replays still sends the original's order. */
  lemma ReplayedStaysFailed(ws: seq<World>, acts: seq<Action>, i: nat, j: nat, id: Uuid)
    requires Run(ws, acts) && i <= j < |ws| && id in ws[i].db.deliveries && ws[i].db.deliveries[id].replayOf.Some?
    ensures var parent := ws[i].db.deliveries[id].replayOf.value;
            && parent in ws[i].db.deliveries && parent in ws[j].db.deliveries && id in ws[j].db.deliveries
            && (ws[j].db.deliveries[parent].status == Failed || ws[j].db.deliveries[parent].status == Dlq)
            && ws[j].db.deliveries[parent] == ws[i].db.deliveries[parent]
            && OrderOf(ws[j].db.deliveries[id]) == OrderOf(ws[i].db.deliveries[parent])
  {
    ForestAlways(ws, acts, i);
    RunEvolves(ws, acts, i, j);
    ParentStays(ws[i].db, ws[j].db, id);
  }

  /** What succeeded is never sent again: in no reachable world does a delivery replay one that is DELIVERED, or one that may
      still be delivered; and a replay has the tenant, event, endpoint and payload it had. */
  lemma OnlyFailuresAreReplayed(ws: seq<World>, acts: seq<Action>, i: nat, id: Uuid, parent: Uuid)
    requires Run(ws, acts) && i < |ws| && id in ws[i].db.deliveries && ws[i].db.deliveries[id].replayOf == Some(parent)
    ensures parent in ws[i].db.deliveries
    ensures var d, original := ws[i].db.deliveries[id], ws[i].db.deliveries[parent];
            && original.status !in {Delivered, Pending, InProgress, Retrying, Cancelled}
            && d.tenantId == original.tenantId && d.eventId == original.eventId && d.endpointId == original.endpointId
            && d.payload == original.payload && d.snapshot == original.snapshot
  {
    ReplayedStaysFailed(ws, acts, i, i, id);
  }
}
