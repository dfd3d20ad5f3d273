/** The endpoint service's leased outbox: endpoint-service/internal/outbox/repository.go and relay.go. Several relays may
    run, stall and crash; a send may fail although it reached the broker. Marking and releasing are guarded by the lock. */
module OutboxRelay {
  import opened Basics

  datatype OutboxMessage = OutboxMessage(
    topic: string, key: string, payload: string, attempts: int, availableAt: Time,
    lockedBy: Option<string>, lockedUntil: Option<Time>, publishedAt: Option<Time>, createdAt: Time)

  /** The copy a relay works on; its attempts are those from before the claim. */
  datatype Message = Message(id: Uuid, topic: string, key: string, payload: string, attempts: int, availableAt: Time)

  function CopyOf(id: Uuid, row: OutboxMessage): Message {
    Message(id, row.topic, row.key, row.payload, row.attempts, row.availableAt)
  }

  function NewMessage(topic: string, key: string, payload: string, now: Time): OutboxMessage {
    OutboxMessage(topic, key, payload, 0, now, None, None, None, now)
  }

  // ----- the transactions -----

  predicate Claimable(row: OutboxMessage, now: Time) {
    && row.publishedAt.None?
    && row.availableAt <= now
    && (row.lockedUntil.None? || row.lockedUntil.value < now)
  }

  predicate Earlier(table: map<Uuid, OutboxMessage>, a: Uuid, b: Uuid)
    requires a in table && b in table
  {
    table[a].createdAt < table[b].createdAt || (table[a].createdAt == table[b].createdAt && a < b)
  }

  /** An answer to the claim query, rows locked by other transactions skipped. */
  ghost predicate ClaimAnswer(table: map<Uuid, OutboxMessage>, locked: set<Uuid>, now: Time, limit: nat, rows: seq<Uuid>) {
    && |rows| <= limit
    && (forall id :: id in rows ==> id in table && id !in locked && Claimable(table[id], now))
    && (forall i, j :: 0 <= i < j < |rows| ==> Earlier(table, rows[i], rows[j]))
    && (forall id :: id in table && id !in locked && Claimable(table[id], now) && id !in rows ==>
          |rows| == limit && forall r :: r in rows ==> Earlier(table, r, id))
  }

  function Locked(row: OutboxMessage, worker: string, lease: Time, now: Time): OutboxMessage {
    row.(lockedBy := Some(worker), lockedUntil := Some(now + lease), attempts := row.attempts + 1)
  }

  function LockRows(table: map<Uuid, OutboxMessage>, rows: set<Uuid>, worker: string, lease: Time, now: Time): map<Uuid, OutboxMessage> {
    map id | id in table :: if id in rows then Locked(table[id], worker, lease, now) else table[id]
  }

  /** WHERE id=… AND locked_by=… */
  predicate HeldBy(table: map<Uuid, OutboxMessage>, id: Uuid, worker: string) {
    id in table && table[id].lockedBy == Some(worker)
  }

  function Published(table: map<Uuid, OutboxMessage>, id: Uuid, worker: string, now: Time): map<Uuid, OutboxMessage> {
    if HeldBy(table, id, worker) then table[id := table[id].(publishedAt := Some(now), lockedBy := None, lockedUntil := None)]
    else table
  }

  function Released(table: map<Uuid, OutboxMessage>, id: Uuid, worker: string, delay: Time, now: Time): map<Uuid, OutboxMessage> {
    if HeldBy(table, id, worker) then table[id := table[id].(availableAt := now + delay, lockedBy := None, lockedUntil := None)]
    else table
  }

  // ----- the retry delay -----

  const MAX_RETRY_SECONDS := 300

  function RetrySeconds(attempt: int): int {
    Min(MAX_RETRY_SECONDS, Pow2(Max(attempt, 1) - 1))
  }

  method RetryDelay(attempt: int) returns (delay: Time)
    ensures delay == RetrySeconds(attempt) * SECOND
  {
    var k := attempt;
    if k < 1 {
      k := 1;
    }
    var seconds := Pow2(k - 1);
    if seconds > 300 {
      seconds := 300;
    }
    return seconds * SECOND;
  }

  /** The delay is between one second and five minutes, doubles from one attempt to the next until it reaches five minutes,
      which it does at the tenth, and never falls. */
  lemma RetryDelayIsCapped(attempt: int)
    ensures 1 <= RetrySeconds(attempt) <= RetrySeconds(attempt + 1) <= MAX_RETRY_SECONDS
    ensures 1 <= attempt < 9 ==> RetrySeconds(attempt + 1) == 2 * RetrySeconds(attempt)
    ensures RetrySeconds(attempt) == MAX_RETRY_SECONDS <==> attempt >= 10
  {
    var k := Max(attempt, 1);
    Pow2Grows(k - 1, Max(attempt + 1, 1) - 1);
    assert Pow2(8) == 256 && Pow2(9) == 512;
    if k >= 10 {
      Pow2Grows(9, k - 1);
    } else {
      Pow2Grows(k - 1, 8);
      if k < 9 {
        Pow2Grows(k, 8);
      }
    }
  }

  // ----- the repository and the relay -----

  /** What the broker client said of one send. */
  datatype SendResult = Sent | SendFailed(reached: bool)

  function Settled(table: map<Uuid, OutboxMessage>, m: Message, sent: SendResult, worker: string, now: Time): map<Uuid, OutboxMessage> {
    match sent
    case Sent => Published(table, m.id, worker, now)
    case SendFailed(_) => Released(table, m.id, worker, RetrySeconds(m.attempts) * SECOND, now)
  }

  function SettledAll(table: map<Uuid, OutboxMessage>, msgs: seq<Message>, sent: seq<SendResult>, worker: string, now: Time): map<Uuid, OutboxMessage>
    requires |sent| == |msgs|
  {
    if msgs == [] then table
    else
      var n := |msgs| - 1;
      Settled(SettledAll(table, msgs[..n], sent[..n], worker, now), msgs[n], sent[n], worker, now)
  }

  /** What no settling touches. */
  predicate SameContent(a: OutboxMessage, b: OutboxMessage) {
    a.topic == b.topic && a.key == b.key && a.payload == b.payload && a.attempts == b.attempts && a.createdAt == b.createdAt
  }

  predicate Unlocked(row: OutboxMessage) {
    row.lockedBy.None? && row.lockedUntil.None?
  }

  ghost predicate OthersStay(a: map<Uuid, OutboxMessage>, b: map<Uuid, OutboxMessage>, id: Uuid) {
    forall x :: x in a && x != id ==> x in b && b[x] == a[x]
  }

  /** Not published, due, and under no lease that still runs. */
  predicate IsFree(row: OutboxMessage, now: Time) {
    row.publishedAt.None? && row.availableAt <= now && !(row.lockedUntil.Some? && row.lockedUntil.value >= now)
  }

  predicate IsTaken(was: OutboxMessage, row: OutboxMessage, worker: string, lease: Time, now: Time) {
    && row.lockedBy == Some(worker) && row.lockedUntil == Some(now + lease) && row.attempts == was.attempts + 1
    && row.topic == was.topic && row.key == was.key && row.payload == was.payload && row.createdAt == was.createdAt
    && row.availableAt == was.availableAt && row.publishedAt == was.publishedAt
  }

  /** What a tick makes of a message it took: unlocked, one attempt more, and published now or put off. */
  predicate IsSettled(was: OutboxMessage, row: OutboxMessage, sent: SendResult, now: Time) {
    && row.lockedBy.None? && row.lockedUntil.None? && row.attempts == was.attempts + 1
    && row.topic == was.topic && row.key == was.key && row.payload == was.payload && row.createdAt == was.createdAt
    && (sent.Sent? ==> row.publishedAt == Some(now) && row.availableAt == was.availableAt)
    && (sent.SendFailed? ==> row.publishedAt.None? && row.availableAt == now + RetrySeconds(was.attempts) * 1_000_000_000)
  }

  class Repository {
    var messages: map<Uuid, OutboxMessage>

    constructor ()
      ensures messages == map[]
    {
      messages := map[];
    }

    method Enqueue(id: Uuid, topic: string, key: string, payload: string, now: Time)
      requires id !in messages
      modifies this
      ensures messages.Keys == old(messages).Keys + {id} && OthersStay(old(messages), messages, id)
      ensures var row := messages[id]; row.topic == topic && row.key == key && row.payload == payload && row.attempts == 0 && row.createdAt == now
      // It is claimable from now on, by anyone, until it is claimed.
      ensures forall t :: Claimable(messages[id], t) <==> now <= t
    {
      messages := messages[id := NewMessage(topic, key, payload, now)];
    }

    method Claim(worker: string, limit: nat, lease: Time, locked: set<Uuid>, rows: seq<Uuid>, now: Time) returns (msgs: seq<Message>)
      requires ClaimAnswer(messages, locked, now, limit, rows)
      modifies this
      ensures messages == LockRows(old(messages), Elements(rows), worker, lease, now)
      ensures |msgs| == |rows| && forall i :: 0 <= i < |rows| ==> msgs[i] == CopyOf(rows[i], old(messages)[rows[i]])
      // Every row taken was free and due; it is locked for this worker until the lease ends, and counts one more attempt.
      ensures messages.Keys == old(messages).Keys && forall id :: id in messages ==>
                if id in rows then IsFree(old(messages)[id], now) && IsTaken(old(messages)[id], messages[id], worker, lease, now)
                else messages[id] == old(messages)[id]
      ensures forall i :: 0 <= i < |rows| ==>
                && rows[i] in old(messages) && msgs[i].id == rows[i] && msgs[i].topic == old(messages)[rows[i]].topic
                && msgs[i].key == old(messages)[rows[i]].key && msgs[i].payload == old(messages)[rows[i]].payload
                && msgs[i].attempts == old(messages)[rows[i]].attempts
    {
      msgs := [];
      for i := 0 to |rows|
        invariant |msgs| == i && forall k :: 0 <= k < i ==> msgs[k] == CopyOf(rows[k], messages[rows[k]])
      {
        msgs := msgs + [CopyOf(rows[i], messages[rows[i]])];
      }
      var tx := messages;
      for i := 0 to |msgs|
        invariant tx.Keys == messages.Keys
        invariant forall id :: id in tx ==>
                    tx[id] == if id in rows[..i] then Locked(messages[id], worker, lease, now) else messages[id]
      {
        var id := msgs[i].id;
        assert id !in rows[..i];
        tx := tx[id := tx[id].(lockedBy := Some(worker), lockedUntil := Some(now + lease), attempts := tx[id].attempts + 1)];
      }
      messages := tx;
    }

    method MarkPublished(id: Uuid, worker: string, now: Time)
      modifies this
      ensures messages.Keys == old(messages).Keys && OthersStay(old(messages), messages, id)
      ensures id in messages ==> SameContent(messages[id], old(messages)[id]) && messages[id].availableAt == old(messages)[id].availableAt
      ensures !HeldBy(messages, id, worker)
      ensures HeldBy(old(messages), id, worker) ==> messages[id].publishedAt == Some(now) && Unlocked(messages[id])
      ensures !HeldBy(old(messages), id, worker) ==> messages == old(messages)
    {
      if id in messages && messages[id].lockedBy == Some(worker) {
        messages := messages[id := messages[id].(publishedAt := Some(now), lockedBy := None, lockedUntil := None)];
      }
    }

    method Release(id: Uuid, worker: string, delay: Time, now: Time)
      modifies this
      ensures messages.Keys == old(messages).Keys && OthersStay(old(messages), messages, id)
      ensures id in messages ==> SameContent(messages[id], old(messages)[id]) && messages[id].publishedAt == old(messages)[id].publishedAt
      ensures !HeldBy(messages, id, worker)
      // A message not yet published is claimable again from the end of the delay on.
      ensures HeldBy(old(messages), id, worker) ==> messages[id].availableAt == now + delay && Unlocked(messages[id])
      ensures HeldBy(old(messages), id, worker) && old(messages)[id].publishedAt.None? ==>
                forall t :: Claimable(messages[id], t) <==> now + delay <= t
      ensures !HeldBy(old(messages), id, worker) ==> messages == old(messages)
    {
      if id in messages && messages[id].lockedBy == Some(worker) {
        messages := messages[id := messages[id].(availableAt := now + delay, lockedBy := None, lockedUntil := None)];
      }
    }

    /** One tick of a relay that runs undisturbed: claim, then send and settle each message in turn. */
    method Flush(worker: string, batchSize: nat, lease: Time, locked: set<Uuid>, rows: seq<Uuid>, sent: seq<SendResult>, now: Time)
      returns (msgs: seq<Message>)
      requires ClaimAnswer(messages, locked, now, batchSize, rows) && |sent| == |rows|
      modifies this
      ensures |msgs| == |rows| && forall i :: 0 <= i < |rows| ==> msgs[i] == CopyOf(rows[i], old(messages)[rows[i]])
      ensures messages == SettledAll(LockRows(old(messages), Elements(rows), worker, lease, now), msgs, sent, worker, now)
      // Message by message: what was sent is published now; what was not is put off by a delay that follows its attempts.
      ensures messages.Keys == old(messages).Keys && forall id :: id in messages && id !in rows ==> messages[id] == old(messages)[id]
      ensures forall i :: 0 <= i < |rows| ==> rows[i] in messages && IsSettled(old(messages)[rows[i]], messages[rows[i]], sent[i], now)
    {
      msgs := Claim(worker, batchSize, lease, locked, rows, now);
      ghost var claimed := messages;
      for i := 0 to |msgs|
        invariant messages == SettledAll(claimed, msgs[..i], sent[..i], worker, now)
      {
        assert msgs[..i + 1][..i] == msgs[..i] && sent[..i + 1][..i] == sent[..i];
        var m := msgs[i];
        ghost var before := messages;
        if sent[i].SendFailed? {
          var delay := RetryDelay(m.attempts);
          Release(m.id, worker, delay, now);
          assert messages == Released(before, m.id, worker, delay, now);
          continue;
        }
        MarkPublished(m.id, worker, now);
        assert messages == Published(before, m.id, worker, now);
      }
      assert msgs[..|msgs|] == msgs && sent[..|sent|] == sent;
      ClaimedRowsDiffer(old(messages), locked, now, batchSize, rows);
      LockedExactly(old(messages), rows, worker, lease, now);
      FlushedExactly(old(messages), claimed, rows, msgs, sent, worker, lease, now);
    }
  }

  lemma LockedExactly(table: map<Uuid, OutboxMessage>, rows: seq<Uuid>, worker: string, lease: Time, now: Time)
    requires forall id :: id in rows ==> id in table
    ensures var claimed := LockRows(table, Elements(rows), worker, lease, now);
            && claimed.Keys == table.Keys
            && forall id :: id in table ==> if id in rows then IsTaken(table[id], claimed[id], worker, lease, now) else claimed[id] == table[id]
  {
  }

  /** The rows of a batch after it was claimed and settled. */
  lemma FlushedExactly(table: map<Uuid, OutboxMessage>, claimed: map<Uuid, OutboxMessage>, rows: seq<Uuid>, msgs: seq<Message>,
                       sent: seq<SendResult>, worker: string, lease: Time, now: Time)
    requires |sent| == |msgs| == |rows| && claimed.Keys == table.Keys && Distinct(rows)
    requires forall i :: 0 <= i < |rows| ==>
               rows[i] in table && msgs[i] == CopyOf(rows[i], table[rows[i]]) && table[rows[i]].publishedAt.None?
               && IsTaken(table[rows[i]], claimed[rows[i]], worker, lease, now)
    requires forall id :: id in table && id !in rows ==> claimed[id] == table[id]
    ensures var after := SettledAll(claimed, msgs, sent, worker, now);
            && after.Keys == table.Keys && (forall id :: id in after && id !in rows ==> after[id] == table[id])
            && (forall i :: 0 <= i < |rows| ==> rows[i] in after && IsSettled(table[rows[i]], after[rows[i]], sent[i], now))
  {
    var after := SettledAll(claimed, msgs, sent, worker, now);
    SettlingKeepsKeys(claimed, msgs, sent, worker, now);
    forall id | id in after && id !in rows
      ensures after[id] == table[id]
    {
      OthersUnsettled(claimed, msgs, sent, worker, now, id);
    }
    forall i | 0 <= i < |rows|
      ensures IsSettled(table[rows[i]], after[rows[i]], sent[i], now)
    {
      SettledAt(claimed, msgs, sent, worker, now, i);
    }
  }

  lemma {:induction false} SettlingKeepsKeys(table: map<Uuid, OutboxMessage>, msgs: seq<Message>, sent: seq<SendResult>, worker: string, now: Time)
    requires |sent| == |msgs|
    ensures SettledAll(table, msgs, sent, worker, now).Keys == table.Keys
    decreases |msgs|
  {
    if msgs != [] {
      SettlingKeepsKeys(table, msgs[..|msgs| - 1], sent[..|msgs| - 1], worker, now);
    }
  }

  lemma {:induction false} OthersUnsettled(table: map<Uuid, OutboxMessage>, msgs: seq<Message>, sent: seq<SendResult>, worker: string, now: Time, id: Uuid)
    requires |sent| == |msgs| && id in table && forall i :: 0 <= i < |msgs| ==> msgs[i].id != id
    ensures id in SettledAll(table, msgs, sent, worker, now) && SettledAll(table, msgs, sent, worker, now)[id] == table[id]
    decreases |msgs|
  {
    if msgs != [] {
      OthersUnsettled(table, msgs[..|msgs| - 1], sent[..|msgs| - 1], worker, now, id);
    }
  }

  lemma {:induction false} SettledAt(table: map<Uuid, OutboxMessage>, msgs: seq<Message>, sent: seq<SendResult>, worker: string, now: Time, i: nat)
    requires |sent| == |msgs| && i < |msgs| && forall j, k :: 0 <= j < k < |msgs| ==> msgs[j].id != msgs[k].id
    requires msgs[i].id in table && table[msgs[i].id].lockedBy == Some(worker)
    ensures var after := SettledAll(table, msgs, sent, worker, now);
            msgs[i].id in after && Settles(table[msgs[i].id], after[msgs[i].id], sent[i], msgs[i].attempts, now)
    decreases |msgs|
  {
    var n := |msgs| - 1;
    var before := SettledAll(table, msgs[..n], sent[..n], worker, now);
    if i == n {
      OthersUnsettled(table, msgs[..n], sent[..n], worker, now, msgs[n].id);
      SettlesOne(before, msgs[n], sent[n], worker, now);
    } else {
      SettledAt(table, msgs[..n], sent[..n], worker, now, i);
    }
  }

  /** What settling makes of a row its worker holds. */
  predicate Settles(was: OutboxMessage, row: OutboxMessage, sent: SendResult, attempts: int, now: Time) {
    && SameContent(row, was) && Unlocked(row)
    && (sent.Sent? ==> row.publishedAt == Some(now) && row.availableAt == was.availableAt)
    && (sent.SendFailed? ==> row.publishedAt == was.publishedAt && row.availableAt == now + RetrySeconds(attempts) * 1_000_000_000)
  }

  lemma SettlesOne(table: map<Uuid, OutboxMessage>, m: Message, sent: SendResult, worker: string, now: Time)
    requires m.id in table && table[m.id].lockedBy == Some(worker)
    ensures var after := Settled(table, m, sent, worker, now);
            && m.id in after && after == table[m.id := after[m.id]] && Settles(table[m.id], after[m.id], sent, m.attempts, now)
  {
  }

  lemma ClaimedRowsDiffer(table: map<Uuid, OutboxMessage>, locked: set<Uuid>, now: Time, limit: nat, rows: seq<Uuid>)
    requires ClaimAnswer(table, locked, now, limit, rows)
    ensures Distinct(rows)
    ensures forall i :: 0 <= i < |rows| ==> rows[i] in rows && rows[i] in table && table[rows[i]].publishedAt.None?
  {
    forall i, j | 0 <= i < j < |rows|
      ensures rows[i] != rows[j]
    {
      assert rows[i] in rows && rows[j] in rows && Earlier(table, rows[i], rows[j]);
    }
  }

  /** The claim query in plain words: it takes only free, due, unlocked rows, oldest first, and leaves such a row behind only if
      the batch is full of older ones. */
  lemma TakesTheOldest(table: map<Uuid, OutboxMessage>, locked: set<Uuid>, now: Time, limit: nat, rows: seq<Uuid>)
    requires ClaimAnswer(table, locked, now, limit, rows)
    ensures |rows| <= limit && forall id :: id in rows ==> id in table && id !in locked && IsFree(table[id], now)
    ensures forall i, j :: 0 <= i < j < |rows| ==>
              rows[i] in table && rows[j] in table
              && (table[rows[i]].createdAt < table[rows[j]].createdAt || (table[rows[i]].createdAt == table[rows[j]].createdAt && rows[i] < rows[j]))
    ensures forall id :: id in table && id !in locked && IsFree(table[id], now) && id !in rows ==>
              |rows| == limit && forall r :: r in rows ==>
                table[r].createdAt < table[id].createdAt || (table[r].createdAt == table[id].createdAt && r < id)
  {
    forall i, j | 0 <= i < j < |rows|
      ensures rows[i] in table && rows[j] in table && Earlier(table, rows[i], rows[j])
    {
      assert rows[i] in rows && rows[j] in rows;
    }
    assert forall id :: id in table ==> (IsFree(table[id], now) <==> Claimable(table[id], now));
  }

  // ----- many relays -----

  /** A claim is known by its message and its number among the message's claims. */
  datatype Token = Token(id: Uuid, number: int)

  function TokenOf(m: Message): Token {
    Token(m.id, m.attempts + 1)
  }

  datatype Held = Held(worker: string, message: Message)

  /** What relays hold of their claims: messages not yet sent, and messages sent whose row is still to be settled. The lease
      is the relays' configuration. */
  datatype World = World(
    now: Time, lease: Time, table: map<Uuid, OutboxMessage>, log: seq<Message>,
    unsent: map<Token, Held>, unsettled: map<Token, (Held, SendResult)>)

  datatype Action =
    | Advance(to: Time)
    | Add(id: Uuid, topic: string, key: string, payload: string)
    | Take(worker: string, limit: nat, locked: set<Uuid>, rows: seq<Uuid>)
    | Send(token: Token, sent: SendResult)
    | Settle(token: Token)
    | Crash(tokens: set<Token>)

  ghost predicate Enabled(w: World, a: Action) {
    match a
    case Advance(to) => w.now <= to
    case Add(id, _, _, _) => id !in w.table
    case Take(_, limit, locked, rows) => ClaimAnswer(w.table, locked, w.now, limit, rows)
    case Send(token, _) => token in w.unsent
    case Settle(token) => token in w.unsettled
    case Crash(_) => true
  }

  function Claims(table: map<Uuid, OutboxMessage>, rows: set<Uuid>, worker: string): map<Token, Held>
    requires rows <= table.Keys
  {
    map id | id in rows :: Token(id, table[id].attempts + 1) := Held(worker, CopyOf(id, table[id]))
  }

  ghost function Apply(w: World, a: Action): World
    requires Enabled(w, a)
  {
    match a
    case Advance(to) => w.(now := to)
    case Add(id, topic, key, payload) => w.(table := w.table[id := NewMessage(topic, key, payload, w.now)])
    case Take(worker, _, _, rows) =>
      w.(table := LockRows(w.table, Elements(rows), worker, w.lease, w.now),
         unsent := w.unsent + Claims(w.table, Elements(rows), worker))
    case Send(token, sent) =>
      w.(unsent := w.unsent - {token}, unsettled := w.unsettled[token := (w.unsent[token], sent)],
         log := if sent.Sent? || sent.reached then w.log + [w.unsent[token].message] else w.log)
    case Settle(token) =>
      var (held, sent) := w.unsettled[token];
      w.(unsettled := w.unsettled - {token}, table := Settled(w.table, held.message, sent, held.worker, w.now))
    case Crash(tokens) => w.(unsent := w.unsent - tokens, unsettled := w.unsettled - tokens)
  }

  predicate Initial(w: World) {
    w.table == map[] && w.log == [] && w.unsent == map[] && w.unsettled == map[] && w.lease >= 0
  }

  /** Each world follows from the one before by `acts`. */
  ghost predicate Segment(ws: seq<World>, acts: seq<Action>) {
    && |ws| == |acts| + 1
    && forall i :: 0 <= i < |acts| ==> Enabled(ws[i], acts[i]) && ws[i + 1] == Apply(ws[i], acts[i])
  }

  /** A run starts with an empty table. */
  ghost predicate Run(ws: seq<World>, acts: seq<Action>) {
    Segment(ws, acts) && Initial(ws[0])
  }

  lemma Joined(ws: seq<World>, acts: seq<Action>, ws': seq<World>, acts': seq<Action>)
    requires Segment(ws, acts) && Segment(ws', acts') && ws'[0] == ws[|acts|]
    ensures Segment(ws + ws'[1..], acts + acts')
  {
    var all, steps := ws + ws'[1..], acts + acts';
    forall i | 0 <= i < |steps|
      ensures Enabled(all[i], steps[i]) && all[i + 1] == Apply(all[i], steps[i])
    {
      if i < |acts| {
        assert steps[i] == acts[i] && all[i] == ws[i] && all[i + 1] == ws[i + 1];
      } else {
        var k := i - |acts|;
        assert steps[i] == acts'[k] && all[i] == ws'[k] && all[i + 1] == ws'[k + 1];
      }
    }
  }

  /** A copy of a message that exists, numbered within its claims and with its content. */
  ghost predicate CopySound(table: map<Uuid, OutboxMessage>, m: Message) {
    && m.id in table && 0 <= m.attempts < table[m.id].attempts
    && m.topic == table[m.id].topic && m.key == table[m.id].key && m.payload == table[m.id].payload
  }

  ghost predicate HeldSound(w: World) {
    && (forall t :: t in w.unsent ==> TokenOf(w.unsent[t].message) == t && CopySound(w.table, w.unsent[t].message))
    && (forall t :: t in w.unsettled ==> TokenOf(w.unsettled[t].0.message) == t && CopySound(w.table, w.unsettled[t].0.message))
    && (forall t :: t in w.unsettled && w.unsettled[t].1.Sent? ==> w.unsettled[t].0.message in w.log)
  }

  ghost predicate LogSound(w: World) {
    && (forall m :: m in w.log ==> CopySound(w.table, m))
    && (forall i, j :: 0 <= i < j < |w.log| ==> TokenOf(w.log[i]) != TokenOf(w.log[j]))
    && (forall t, i :: t in w.unsent && 0 <= i < |w.log| ==> TokenOf(w.log[i]) != t)
  }

  ghost predicate InLog(log: seq<Message>, id: Uuid) {
    exists m :: m in log && m.id == id
  }

  ghost predicate RowSound(w: World, id: Uuid)
    requires id in w.table
  {
    var row := w.table[id];
    && row.attempts >= 0
    && (row.publishedAt.Some? ==> row.lockedBy.None? && row.lockedUntil.None? && InLog(w.log, id))
    && (row.lockedBy.Some? <==> row.lockedUntil.Some?)
    && row.availableAt <= w.now + MAX_RETRY_SECONDS * SECOND
    && (row.lockedUntil.Some? ==> row.lockedUntil.value <= w.now + w.lease)
  }

  ghost predicate Inv(w: World) {
    HeldSound(w) && LogSound(w) && w.lease >= 0 && forall id :: id in w.table ==> RowSound(w, id)
  }

  lemma ClaimsHas(table: map<Uuid, OutboxMessage>, rows: set<Uuid>, worker: string, t: Token)
    requires rows <= table.Keys
    ensures t in Claims(table, rows, worker) <==> t.id in rows && t.number == table[t.id].attempts + 1
    ensures t in Claims(table, rows, worker) ==> Claims(table, rows, worker)[t] == Held(worker, CopyOf(t.id, table[t.id]))
  {
    if t.id in rows && t.number == table[t.id].attempts + 1 {
      assert t == Token(t.id, table[t.id].attempts + 1);
      assert t in Claims(table, rows, worker);
    }
  }

  lemma TakeKeepsInv(w: World, a: Action)
    requires Inv(w) && a.Take? && Enabled(w, a)
    ensures Inv(Apply(w, a))
  {
    var w' := Apply(w, a);
    TakeKeepsRows(w, a);
    forall t | t in w'.unsent
      ensures TokenOf(w'.unsent[t].message) == t && CopySound(w'.table, w'.unsent[t].message)
      ensures forall i :: 0 <= i < |w.log| ==> TokenOf(w.log[i]) != t
    {
      ClaimsHas(w.table, Elements(a.rows), a.worker, t);
      if t in Claims(w.table, Elements(a.rows), a.worker) {
        forall i | 0 <= i < |w.log|
          ensures TokenOf(w.log[i]) != t
        {
          assert w.log[i] in w.log;
        }
      }
    }
  }

  lemma TakeKeepsRows(w: World, a: Action)
    requires Inv(w) && a.Take? && Enabled(w, a)
    ensures forall id :: id in Apply(w, a).table ==> RowSound(Apply(w, a), id)
    ensures forall m :: CopySound(w.table, m) ==> CopySound(Apply(w, a).table, m)
    ensures forall id :: id in Apply(w, a).table <==> id in w.table
  {
    forall id | id in Apply(w, a).table
      ensures RowSound(Apply(w, a), id)
    {
      assert RowSound(w, id);
    }
  }

  lemma SendKeepsInv(w: World, a: Action)
    requires Inv(w) && a.Send? && Enabled(w, a)
    ensures Inv(Apply(w, a))
  {
    var w' := Apply(w, a);
    assert forall m :: m in w.log ==> m in w'.log;
    forall id | id in w'.table
      ensures RowSound(w', id)
    {
      assert RowSound(w, id);
    }
  }

  lemma SettleKeepsInv(w: World, a: Action)
    requires Inv(w) && a.Settle? && Enabled(w, a)
    ensures Inv(Apply(w, a))
  {
    var w' := Apply(w, a);
    var (held, sent) := w.unsettled[a.token];
    RetryDelayIsCapped(held.message.attempts);
    SettleTouchesOne(w, a);
    forall id | id in w'.table
      ensures RowSound(w', id)
    {
      assert RowSound(w, id);
    }
    assert forall m :: CopySound(w.table, m) ==> CopySound(w'.table, m);
  }

  /** Settling touches at most its own row, keeps its content and number of attempts, and publishes only what was sent. */
  lemma SettleTouchesOne(w: World, a: Action)
    requires Inv(w) && a.Settle? && Enabled(w, a)
    ensures var w' := Apply(w, a);
            && (forall id :: id in w'.table <==> id in w.table)
            && (forall id :: id in w.table && id != a.token.id ==> w'.table[id] == w.table[id])
            && (forall id :: id in w.table ==> w'.table[id].attempts == w.table[id].attempts && w'.table[id].topic == w.table[id].topic
                                               && w'.table[id].key == w.table[id].key && w'.table[id].payload == w.table[id].payload)
            && (forall id :: id in w.table && w.table[id].publishedAt.Some? ==> w'.table[id] == w.table[id])
            && (forall id :: id in w.table && w'.table[id].publishedAt.Some? && w.table[id].publishedAt.None? ==> InLog(w.log, id))
  {
    assert TokenOf(w.unsettled[a.token].0.message) == a.token;
    forall id | id in w.table && w.table[id].publishedAt.Some?
      ensures w.table[id].lockedBy.None?
    {
      assert RowSound(w, id);
    }
  }

  lemma PlainStepKeepsInv(w: World, a: Action)
    requires Inv(w) && (a.Advance? || a.Add? || a.Crash?) && Enabled(w, a)
    ensures Inv(Apply(w, a))
  {
    var w' := Apply(w, a);
    forall id | id in w'.table
      ensures RowSound(w', id)
    {
      if id in w.table {
        assert RowSound(w, id);
      }
    }
  }

  lemma StepKeepsInv(w: World, a: Action)
    requires Inv(w) && Enabled(w, a)
    ensures Inv(Apply(w, a))
  {
    if a.Take? {
      TakeKeepsInv(w, a);
    } else if a.Send? {
      SendKeepsInv(w, a);
    } else if a.Settle? {
      SettleKeepsInv(w, a);
    } else {
      PlainStepKeepsInv(w, a);
    }
  }

  lemma {:induction false} InvAlways(ws: seq<World>, acts: seq<Action>, i: nat)
    requires Run(ws, acts) && i < |ws|
    ensures Inv(ws[i]) && ws[i].lease == ws[0].lease
  {
    if i > 0 {
      InvAlways(ws, acts, i - 1);
      StepKeepsInv(ws[i - 1], acts[i - 1]);
    }
  }

  // ----- what every run guarantees -----

  /** A row marked published is in the broker's log with the payload it stores. */
  lemma PublishedIsInTheLog(ws: seq<World>, acts: seq<Action>, i: nat, id: Uuid)
    requires Run(ws, acts) && i < |ws| && id in ws[i].table && ws[i].table[id].publishedAt.Some?
    ensures exists m :: m in ws[i].log && m.id == id && m.topic == ws[i].table[id].topic && m.key == ws[i].table[id].key
                        && m.payload == ws[i].table[id].payload
  {
    InvAlways(ws, acts, i);
    assert RowSound(ws[i], id);
    var m :| m in ws[i].log && m.id == id;
    assert CopySound(ws[i].table, m);
  }

  /** How often a message is in the log. */
  function Copies(log: seq<Message>, id: Uuid): nat {
    if log == [] then 0 else Copies(log[..|log| - 1], id) + One(log[|log| - 1].id == id)
  }

  ghost function Numbers(log: seq<Message>, id: Uuid): set<int> {
    set m | m in log && m.id == id :: m.attempts + 1
  }

  lemma {:induction false} CopiesAreNumbered(log: seq<Message>, id: Uuid)
    requires forall i, j :: 0 <= i < j < |log| ==> TokenOf(log[i]) != TokenOf(log[j])
    ensures Copies(log, id) == |Numbers(log, id)|
  {
    if log == [] {
      assert Numbers(log, id) == {};
    } else {
      var front, last := log[..|log| - 1], log[|log| - 1];
      CopiesAreNumbered(front, id);
      assert log == front + [last];
      if last.id == id {
        forall m | m in front && m.id == id
          ensures m.attempts != last.attempts
        {
          var j :| 0 <= j < |front| && front[j] == m;
          assert TokenOf(log[j]) != TokenOf(log[|log| - 1]);
        }
        assert last.attempts + 1 !in Numbers(front, id);
        assert Numbers(log, id) == Numbers(front, id) + {last.attempts + 1};
      } else {
        assert Numbers(log, id) == Numbers(front, id);
      }
    }
  }

  /** At-least-once, but bounded: the log never holds more copies of a message than its row counts attempts. */
  lemma CopiesWithinAttempts(ws: seq<World>, acts: seq<Action>, i: nat, id: Uuid)
    requires Run(ws, acts) && i < |ws| && id in ws[i].table
    ensures Copies(ws[i].log, id) <= ws[i].table[id].attempts
  {
    InvAlways(ws, acts, i);
    var w := ws[i];
    assert RowSound(w, id);
    CopiesAreNumbered(w.log, id);
    forall n | n in Numbers(w.log, id)
      ensures 1 <= n <= w.table[id].attempts
    {
      var m :| m in w.log && m.id == id && m.attempts + 1 == n;
      assert CopySound(w.table, m);
    }
    Pigeonhole(Numbers(w.log, id), w.table[id].attempts);
  }

  lemma StepKeepsPublished(w: World, a: Action, id: Uuid)
    requires Inv(w) && Enabled(w, a) && id in w.table && w.table[id].publishedAt.Some?
    ensures id in Apply(w, a).table && Apply(w, a).table[id] == w.table[id]
  {
    if a.Settle? {
      SettleTouchesOne(w, a);
    } else if a.Take? {
      assert id !in a.rows;
    }
  }

  /** A published row is frozen and unlocked for ever. */
  lemma {:induction false} PublishedIsFrozen(ws: seq<World>, acts: seq<Action>, i: nat, j: nat, id: Uuid)
    requires Run(ws, acts) && i <= j < |ws| && id in ws[i].table && ws[i].table[id].publishedAt.Some?
    ensures id in ws[j].table && ws[j].table[id] == ws[i].table[id] && ws[i].table[id].lockedBy.None? && ws[i].table[id].lockedUntil.None?
    decreases j
  {
    if i < j {
      PublishedIsFrozen(ws, acts, i, j - 1, id);
      InvAlways(ws, acts, j - 1);
      StepKeepsPublished(ws[j - 1], acts[j - 1], id);
    } else {
      InvAlways(ws, acts, i);
      assert RowSound(ws[i], id);
    }
  }

  /** Whatever crashed, an unpublished row is claimable once the lease and the longest retry delay have passed. */
  lemma UnpublishedIsClaimableAgain(ws: seq<World>, acts: seq<Action>, i: nat, id: Uuid, t: Time)
    requires Run(ws, acts) && i < |ws| && id in ws[i].table && ws[i].table[id].publishedAt.None?
    requires t > ws[i].now + Max(MAX_RETRY_SECONDS * SECOND, ws[i].lease)
    ensures Claimable(ws[i].table[id], t)
  {
    InvAlways(ws, acts, i);
    assert RowSound(ws[i], id);
  }

  /** The guard on the lock: settling by a worker that does not hold the row's lock changes nothing, and by the one that
      does it always changes the row. So a relay whose lease was taken over by one of another name cannot interfere, and
      one that shares its name can. */
  lemma SettlingNeedsTheLock(w: World, a: Action)
    requires Inv(w) && a.Settle? && Enabled(w, a)
    ensures Apply(w, a).table != w.table <==> HeldBy(w.table, a.token.id, w.unsettled[a.token].0.worker)
  {
    assert TokenOf(w.unsettled[a.token].0.message) == a.token;
    assert RowSound(w, a.token.id);
    var (held, sent) := w.unsettled[a.token];
    if HeldBy(w.table, a.token.id, held.worker) {
      assert Apply(w, a).table[a.token.id].lockedBy.None?;
    }
  }

  /** No step but a claim in that worker's name gives it a lock. */
  lemma OnlyClaimsLock(w: World, a: Action, id: Uuid, worker: string)
    requires Inv(w) && Enabled(w, a) && !HeldBy(w.table, id, worker)
    requires a.Take? && id in a.rows ==> a.worker != worker
    ensures !HeldBy(Apply(w, a).table, id, worker)
  {
    if a.Settle? {
      assert TokenOf(w.unsettled[a.token].0.message) == a.token;
    }
  }

  /** Worker `worker` does not claim `id` in steps i..j. */
  ghost predicate StaysAway(acts: seq<Action>, i: nat, j: nat, id: Uuid, worker: string)
    requires j <= |acts|
  {
    forall k :: i <= k < j && acts[k].Take? && id in acts[k].rows ==> acts[k].worker != worker
  }

  lemma {:induction false} LockStaysAway(ws: seq<World>, acts: seq<Action>, i: nat, j: nat, id: Uuid, worker: string)
    requires Run(ws, acts) && i <= j < |ws| && !HeldBy(ws[i].table, id, worker) && StaysAway(acts, i, j, id, worker)
    ensures !HeldBy(ws[j].table, id, worker)
    decreases j
  {
    if i < j {
      LockStaysAway(ws, acts, i, j - 1, id, worker);
      InvAlways(ws, acts, j - 1);
      OnlyClaimsLock(ws[j - 1], acts[j - 1], id, worker);
    }
  }

  /** A takeover shuts out the relay it was taken from: once a relay of another name has claimed the row, every mark and
      release of the old one, however much later, changes nothing, until the old one claims the row itself again. */
  lemma TakeoverShutsOut(ws: seq<World>, acts: seq<Action>, i: nat, j: nat, settle: Action)
    requires Run(ws, acts) && i < j < |ws|
    requires settle.Settle? && Enabled(ws[j], settle)
    requires var old_ := ws[j].unsettled[settle.token].0.worker; var id := settle.token.id;
             && acts[i].Take? && id in acts[i].rows && acts[i].worker != old_
             && StaysAway(acts, i + 1, j, id, old_)
    ensures Apply(ws[j], settle).table == ws[j].table
  {
    var old_, id := ws[j].unsettled[settle.token].0.worker, settle.token.id;
    assert ws[i + 1] == Apply(ws[i], acts[i]);
    assert !HeldBy(ws[i + 1].table, id, old_);
    LockStaysAway(ws, acts, i + 1, j, id, old_);
    InvAlways(ws, acts, j);
    SettlingNeedsTheLock(ws[j], settle);
  }
}
