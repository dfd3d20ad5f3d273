/** What the guard on the lock does not prevent: two relays under one name, as the endpoint service starts them. The first
    stalls, the second takes its message over, and when the first fails at last its release undoes the second's lock, so
    that a third claim can have the message while the second still works on it under a lease that has not ended. */
module SharedRelayName {
  import opened Basics
  import opened OutboxRelay

  const NAME := "endpoint-relay-1"
  const LEASE: Time := 30 * SECOND

  /** The one message as it stands after `attempts` claims. */
  function Row(attempts: int, available: Time, until: Option<Time>): OutboxMessage {
    OutboxMessage("endpoints", "1", "{}", attempts, available, if until.Some? then Some(NAME) else None, until, None, 0)
  }

  function Claimed(attempts: int): Held {
    Held(NAME, Message(1, "endpoints", "1", "{}", attempts, 0))
  }

  const FIRST := Token(1, 1)
  const SECOND_CLAIM := Token(1, 2)

  // The worlds of the run.
  const W0 := World(0, LEASE, map[], [], map[], map[])
  const W1 := W0.(table := map[1 := Row(0, 0, None)])
  const W2 := W1.(table := map[1 := Row(1, 0, Some(30 * SECOND))], unsent := map[FIRST := Claimed(0)])
  const W3 := W2.(now := 31 * SECOND)
  const W4 := W3.(table := map[1 := Row(2, 0, Some(61 * SECOND))], unsent := map[FIRST := Claimed(0), SECOND_CLAIM := Claimed(1)])
  const W5 := W4.(unsent := map[SECOND_CLAIM := Claimed(1)], unsettled := map[FIRST := (Claimed(0), SendFailed(false))])
  const W6 := W5.(table := map[1 := Row(2, 32 * SECOND, None)], unsettled := map[])
  const W7 := W6.(now := 33 * SECOND)

  const ENQUEUE: Action := Add(1, "endpoints", "1", "{}")
  const TAKE: Action := Take(NAME, 100, {}, [1])
  const FAIL: Action := Send(FIRST, SendFailed(false))

  lemma OnlyAnswer(table: map<Uuid, OutboxMessage>, now: Time)
    requires table.Keys == {1} && Claimable(table[1], now)
    ensures ClaimAnswer(table, {}, now, 100, [1])
  {
  }

  /** Claiming the only message. */
  lemma TakeOnly(w: World, w': World, attempts: int)
    requires w.table.Keys == {1} && Claimable(w.table[1], w.now)
    requires w.table[1].attempts == attempts && CopyOf(1, w.table[1]) == Claimed(attempts).message
    requires w' == w.(table := map[1 := Locked(w.table[1], NAME, w.lease, w.now)], unsent := w.unsent[Token(1, attempts + 1) := Claimed(attempts)])
    ensures Segment([w, w'], [TAKE])
  {
    OnlyAnswer(w.table, w.now);
    TakeApplied(w, attempts);
  }

  lemma TakeApplied(w: World, attempts: int)
    requires w.table.Keys == {1} && Enabled(w, TAKE)
    requires w.table[1].attempts == attempts && CopyOf(1, w.table[1]) == Claimed(attempts).message
    ensures Apply(w, TAKE)
         == w.(table := map[1 := Locked(w.table[1], NAME, w.lease, w.now)], unsent := w.unsent[Token(1, attempts + 1) := Claimed(attempts)])
  {
    var rows := Elements(TAKE.rows);
    assert rows == {1};
    LockOnly(w.table, w.lease, w.now);
    ClaimOnly(w.table, attempts);
  }

  lemma LockOnly(table: map<Uuid, OutboxMessage>, lease: Time, now: Time)
    requires table.Keys == {1}
    ensures LockRows(table, {1}, NAME, lease, now) == map[1 := Locked(table[1], NAME, lease, now)]
  {
  }

  lemma ClaimOnly(table: map<Uuid, OutboxMessage>, attempts: int)
    requires table.Keys == {1} && table[1].attempts == attempts && CopyOf(1, table[1]) == Claimed(attempts).message
    ensures Claims(table, {1}, NAME) == map[Token(1, attempts + 1) := Claimed(attempts)]
  {
    forall t
      ensures t in Claims(table, {1}, NAME) <==> t == Token(1, attempts + 1)
      ensures t in Claims(table, {1}, NAME) ==> Claims(table, {1}, NAME)[t] == Claimed(attempts)
    {
      ClaimsHas(table, {1}, NAME, t);
    }
  }

  lemma FirstHalf()
    ensures Segment([W0, W1, W2, W3], [ENQUEUE] + [TAKE] + [Advance(31 * SECOND)])
  {
    TakeOnly(W1, W2, 0);
    assert Segment([W0, W1], [ENQUEUE]);
    assert Segment([W2, W3], [Advance(31 * SECOND)]);
    Joined([W0, W1], [ENQUEUE], [W1, W2], [TAKE]);
    assert [W0, W1] + [W1, W2][1..] == [W0, W1, W2];
    Joined([W0, W1, W2], [ENQUEUE] + [TAKE], [W2, W3], [Advance(31 * SECOND)]);
    assert [W0, W1, W2] + [W2, W3][1..] == [W0, W1, W2, W3];
  }

  lemma LateFailure()
    ensures Segment([W4, W5], [FAIL]) && Segment([W5, W6], [Settle(FIRST)]) && Segment([W6, W7], [Advance(33 * SECOND)])
  {
  }

  lemma SecondHalf()
    ensures Segment([W3, W4, W5, W6, W7], [TAKE] + [FAIL] + [Settle(FIRST)] + [Advance(33 * SECOND)])
  {
    TakeOnly(W3, W4, 1);
    LateFailure();
    Joined([W3, W4], [TAKE], [W4, W5], [FAIL]);
    assert [W3, W4] + [W4, W5][1..] == [W3, W4, W5];
    Joined([W3, W4, W5], [TAKE] + [FAIL], [W5, W6], [Settle(FIRST)]);
    assert [W3, W4, W5] + [W5, W6][1..] == [W3, W4, W5, W6];
    Joined([W3, W4, W5, W6], [TAKE] + [FAIL] + [Settle(FIRST)], [W6, W7], [Advance(33 * SECOND)]);
    assert [W3, W4, W5, W6] + [W6, W7][1..] == [W3, W4, W5, W6, W7];
  }

  /** Enqueue; the first relay claims and stalls; the second takes over; the first fails and settles; two seconds pass. At
      step 5 the second relay's lease runs to 61 s. At step 6 nobody holds the message, and at step 7, at 33 s, it can be
      claimed again although the second relay has not yet sent it. */
  lemma SharedNameUndoesALease() returns (ws: seq<World>, acts: seq<Action>)
    ensures Run(ws, acts) && |ws| == 8 && ws[0] == W0
    ensures acts == [ENQUEUE, TAKE, Advance(31 * SECOND), TAKE, FAIL, Settle(FIRST), Advance(33 * SECOND)]
    ensures 1 in ws[5].table && ws[5].table[1].lockedUntil == Some(61 * SECOND) && SECOND_CLAIM in ws[5].unsent
    ensures 1 in ws[6].table && ws[6].table[1].lockedBy.None?
    ensures 1 in ws[7].table && ws[7].now < 61 * SECOND && SECOND_CLAIM in ws[7].unsent && Claimable(ws[7].table[1], ws[7].now)
  {
    FirstHalf();
    SecondHalf();
    ws := [W0, W1, W2, W3] + [W3, W4, W5, W6, W7][1..];
    acts := [ENQUEUE] + [TAKE] + [Advance(31 * SECOND)] + ([TAKE] + [FAIL] + [Settle(FIRST)] + [Advance(33 * SECOND)]);
    Joined([W0, W1, W2, W3], [ENQUEUE] + [TAKE] + [Advance(31 * SECOND)],
           [W3, W4, W5, W6, W7], [TAKE] + [FAIL] + [Settle(FIRST)] + [Advance(33 * SECOND)]);
  }
}
