/** A tick of a relay through its repository is a run of the world in `OutboxRelay`: one claim, then a send and a settling for
    each message of the batch. */
module RelayTicks {
  import opened Basics
  import opened OutboxRelay

  /** What a relay holds in the middle of its batch: the messages from the `n`-th on. */
  ghost predicate HoldsRest(w: World, worker: string, msgs: seq<Message>, n: nat) {
    forall k :: n <= k < |msgs| ==> TokenOf(msgs[k]) in w.unsent && w.unsent[TokenOf(msgs[k])] == Held(worker, msgs[k])
  }

  /** Sending one message and settling its row. */
  lemma SendAndSettle(w: World, worker: string, msgs: seq<Message>, n: nat, sent: SendResult) returns (w': World, acts: seq<Action>)
    requires n < |msgs| && HoldsRest(w, worker, msgs, n)
    requires forall i, j :: 0 <= i < j < |msgs| ==> msgs[i].id != msgs[j].id
    ensures acts == [Send(TokenOf(msgs[n]), sent), Settle(TokenOf(msgs[n]))]
    ensures exists w1 :: Segment([w, w1, w'], acts)
    ensures w'.table == Settled(w.table, msgs[n], sent, worker, w.now) && w'.now == w.now && HoldsRest(w', worker, msgs, n + 1)
  {
    var t := TokenOf(msgs[n]);
    acts := [Send(t, sent), Settle(t)];
    var w1 := Apply(w, acts[0]);
    w' := Apply(w1, acts[1]);
    assert Segment([w, w1, w'], acts);
  }

  lemma BatchIsARun(w: World, worker: string, msgs: seq<Message>, sent: seq<SendResult>, n: nat) returns (ws: seq<World>, acts: seq<Action>)
    requires |sent| == |msgs| && n <= |msgs| && HoldsRest(w, worker, msgs, 0)
    requires forall i, j :: 0 <= i < j < |msgs| ==> msgs[i].id != msgs[j].id
    ensures Segment(ws, acts) && ws[0] == w && |acts| == 2 * n
    ensures ws[|acts|].table == SettledAll(w.table, msgs[..n], sent[..n], worker, w.now)
    ensures ws[|acts|].now == w.now && HoldsRest(ws[|acts|], worker, msgs, n)
  {
    if n == 0 {
      ws, acts := [w], [];
    } else {
      ws, acts := BatchIsARun(w, worker, msgs, sent, n - 1);
      var w', two := SendAndSettle(ws[|acts|], worker, msgs, n - 1, sent[n - 1]);
      var w1 :| Segment([ws[|acts|], w1, w'], two);
      Joined(ws, acts, [ws[|acts|], w1, w'], two);
      ws, acts := ws + [ws[|acts|], w1, w'][1..], acts + two;
      assert msgs[..n][..n - 1] == msgs[..n - 1] && sent[..n][..n - 1] == sent[..n - 1];
    }
  }

  lemma ClaimHolds(w: World, worker: string, limit: nat, locked: set<Uuid>, rows: seq<Uuid>, msgs: seq<Message>)
    requires Enabled(w, Take(worker, limit, locked, rows))
    requires |msgs| == |rows| && forall i :: 0 <= i < |rows| ==> msgs[i] == CopyOf(rows[i], w.table[rows[i]])
    ensures HoldsRest(Apply(w, Take(worker, limit, locked, rows)), worker, msgs, 0)
    ensures forall i, j :: 0 <= i < j < |msgs| ==> msgs[i].id != msgs[j].id
  {
    forall k | 0 <= k < |msgs|
      ensures var w' := Apply(w, Take(worker, limit, locked, rows));
              TokenOf(msgs[k]) in w'.unsent && w'.unsent[TokenOf(msgs[k])] == Held(worker, msgs[k])
    {
      assert rows[k] in rows;
      ClaimsHas(w.table, Elements(rows), worker, TokenOf(msgs[k]));
    }
    forall i, j | 0 <= i < j < |msgs|
      ensures msgs[i].id != msgs[j].id
    {
      assert rows[i] in rows && rows[j] in rows && Earlier(w.table, rows[i], rows[j]);
    }
  }

  /** The whole tick, as values. */
  lemma TickIsARun(w: World, worker: string, limit: nat, locked: set<Uuid>, rows: seq<Uuid>, msgs: seq<Message>, sent: seq<SendResult>)
    returns (ws: seq<World>, acts: seq<Action>)
    requires Enabled(w, Take(worker, limit, locked, rows)) && |sent| == |rows|
    requires |msgs| == |rows| && forall i :: 0 <= i < |rows| ==> msgs[i] == CopyOf(rows[i], w.table[rows[i]])
    ensures Segment(ws, acts) && ws[0] == w && |acts| == 2 * |rows| + 1
    ensures ws[|acts|].table == SettledAll(LockRows(w.table, Elements(rows), worker, w.lease, w.now), msgs, sent, worker, w.now)
  {
    var w1 := TakeBatch(w, worker, limit, locked, rows, msgs);
    var rest, settling := WholeBatch(w1, worker, msgs, sent);
    ws := StepFirst(w, Take(worker, limit, locked, rows), w1, rest, settling);
    acts := [Take(worker, limit, locked, rows)] + settling;
  }

  lemma WholeBatch(w: World, worker: string, msgs: seq<Message>, sent: seq<SendResult>) returns (ws: seq<World>, acts: seq<Action>)
    requires |sent| == |msgs| && HoldsRest(w, worker, msgs, 0)
    requires forall i, j :: 0 <= i < j < |msgs| ==> msgs[i].id != msgs[j].id
    ensures Segment(ws, acts) && ws[0] == w && |acts| == 2 * |msgs| && ws[|acts|].table == SettledAll(w.table, msgs, sent, worker, w.now)
  {
    ws, acts := BatchIsARun(w, worker, msgs, sent, |msgs|);
    assert msgs[..|msgs|] == msgs && sent[..|sent|] == sent;
  }

  lemma StepFirst(w: World, a: Action, w1: World, ws: seq<World>, acts: seq<Action>) returns (all: seq<World>)
    requires Segment([w, w1], [a]) && Segment(ws, acts) && ws[0] == w1
    ensures Segment(all, [a] + acts) && all[0] == w && all[|acts| + 1] == ws[|acts|]
  {
    all := [w, w1] + ws[1..];
    Joined([w, w1], [a], ws, acts);
  }

  lemma TakeBatch(w: World, worker: string, limit: nat, locked: set<Uuid>, rows: seq<Uuid>, msgs: seq<Message>) returns (w1: World)
    requires Enabled(w, Take(worker, limit, locked, rows))
    requires |msgs| == |rows| && forall i :: 0 <= i < |rows| ==> msgs[i] == CopyOf(rows[i], w.table[rows[i]])
    ensures Segment([w, w1], [Take(worker, limit, locked, rows)]) && w1.now == w.now
    ensures w1.table == LockRows(w.table, Elements(rows), worker, w.lease, w.now)
    ensures HoldsRest(w1, worker, msgs, 0) && forall i, j :: 0 <= i < j < |msgs| ==> msgs[i].id != msgs[j].id
  {
    w1 := Apply(w, Take(worker, limit, locked, rows));
    ClaimHolds(w, worker, limit, locked, rows, msgs);
  }

  method FlushTick(repo: Repository, worker: string, batchSize: nat, locked: set<Uuid>, rows: seq<Uuid>, sent: seq<SendResult>, now: Time, lease: Time,
                   ghost w: World)
    returns (msgs: seq<Message>, ghost ws: seq<World>, ghost acts: seq<Action>)
    requires repo.messages == w.table && w.now == now && w.lease == lease
    requires ClaimAnswer(w.table, locked, now, batchSize, rows) && |sent| == |rows|
    modifies repo
    ensures Segment(ws, acts) && ws[0] == w && |acts| == 2 * |rows| + 1 && repo.messages == ws[|acts|].table
  {
    msgs := repo.Flush(worker, batchSize, lease, locked, rows, sent, now);
    ws, acts := TickIsARun(w, worker, batchSize, locked, rows, msgs, sent);
  }
}
