/** Accepting events: event-service/internal/event/repository.go and event-service/internal/outbox/publisher.go. An
    idempotency key is first looked up and, if absent, inserted together with the event and an outbox row; between the two
    any number of other transactions may commit. */
module EventIngestion {
  import opened Basics

  const ZERO_TIME: Time := 0

  datatype Event = Event(
    id: Uuid, tenantId: Uuid, eventType: string, payload: string,
    occurredAt: Option<Time>, source: Option<string>, metadata: string, createdAt: Time)

  datatype PublishRequest = PublishRequest(
    eventType: string, idempotencyKey: string, data: string,
    occurredAt: Option<Time>, source: Option<string>, metadata: string)

  /** The primary key of event_idempotency. */
  datatype IdempotencyKey = IdempotencyKey(tenantId: Uuid, key: string)

  /** What the outbox says about an event, and what the broker carries. */
  datatype Message = Message(eventId: Uuid, tenantId: Uuid, eventType: string)

  datatype OutboxRow = OutboxRow(message: Message, createdAt: Time, publishedAt: Option<Time>, attempts: nat)

  datatype Store = Store(events: map<Uuid, Event>, keys: map<IdempotencyKey, Uuid>, outbox: map<Uuid, OutboxRow>)

  datatype CreateError = InvalidRequest | InsertFailed(error: DbError) | EventMissing

  predicate ValidRequest(req: PublishRequest) {
    req.eventType != "" && req.idempotencyKey != "" && req.data != ""
  }

  function KeyOf(tenantId: Uuid, req: PublishRequest): IdempotencyKey {
    IdempotencyKey(tenantId, req.idempotencyKey)
  }

  /** The event the first caller gets back: its creation time is never read from the database. */
  function NewEvent(tenantId: Uuid, req: PublishRequest, id: Uuid): Event {
    Event(id, tenantId, req.eventType, req.data, req.occurredAt, req.source, req.metadata, ZERO_TIME)
  }

  /** The event is what `tenantId` asked for. */
  predicate Requested(e: Event, tenantId: Uuid, req: PublishRequest) {
    && e.tenantId == tenantId && e.eventType == req.eventType && e.payload == req.data
    && e.occurredAt == req.occurredAt && e.source == req.source && e.metadata == req.metadata
  }

  function MessageOf(e: Event): Message {
    Message(e.id, e.tenantId, e.eventType)
  }

  /** The insert phase: three rows or, if the key was taken meanwhile, none. */
  function Inserted(s: Store, tenantId: Uuid, req: PublishRequest, eventId: Uuid, rowId: Uuid, now: Time): Result<Store, DbError> {
    var event := NewEvent(tenantId, req, eventId);
    if eventId in s.events then Err(UniqueViolation)
    else if KeyOf(tenantId, req) in s.keys then Err(UniqueViolation)
    else Ok(Store(s.events[eventId := event.(createdAt := now)],
                  s.keys[KeyOf(tenantId, req) := eventId],
                  s.outbox[rowId := OutboxRow(MessageOf(event), now, None, 0)]))
  }

  function Stored(s: Store, tenantId: Uuid, eventId: Uuid): Option<Event> {
    if eventId in s.events && s.events[eventId].tenantId == tenantId then Some(s.events[eventId]) else None
  }

  // ----- publishing -----

  /** What became of one write to the broker. A failed write may have reached it all the same. */
  datatype SendResult = Acknowledged | Failed(reached: bool)

  function Marked(row: OutboxRow, sent: SendResult, now: Time): OutboxRow {
    match sent
    case Acknowledged => row.(publishedAt := Some(now))
    case Failed(_) => row.(attempts := row.attempts + 1)
  }

  /** The outbox after the loop has dealt with `rows`. */
  function MarkedRows(outbox: map<Uuid, OutboxRow>, rows: seq<Uuid>, sent: seq<SendResult>, now: Time): map<Uuid, OutboxRow>
    requires |sent| == |rows|
  {
    if rows == [] then outbox
    else
      var n := |rows| - 1;
      var front := MarkedRows(outbox, rows[..n], sent[..n], now);
      if rows[n] in front then front[rows[n] := Marked(front[rows[n]], sent[n], now)] else front
  }

  /** The messages that reached the broker. */
  function Reached(outbox: map<Uuid, OutboxRow>, rows: seq<Uuid>, sent: seq<SendResult>): seq<Message>
    requires |sent| == |rows|
  {
    if rows == [] then []
    else
      var n := |rows| - 1;
      var front := Reached(outbox, rows[..n], sent[..n]);
      if rows[n] in outbox && (sent[n].Acknowledged? || sent[n].reached) then front + [outbox[rows[n]].message] else front
  }

  predicate Unpublished(outbox: map<Uuid, OutboxRow>, id: Uuid) {
    id in outbox && outbox[id].publishedAt.None?
  }

  class Repository {
    var events: map<Uuid, Event>
    var keys: map<IdempotencyKey, Uuid>
    var outbox: map<Uuid, OutboxRow>

    constructor ()
      ensures Rows() == Store(map[], map[], map[])
    {
      events, keys, outbox := map[], map[], map[];
    }

    function Rows(): Store
      reads this
    {
      Store(events, keys, outbox)
    }

    /** `visible` is the idempotency table as the lookup saw it; since then rows may have been added, none removed. */
    method CreateEvent(req: PublishRequest, tenantId: Uuid, visible: map<IdempotencyKey, Uuid>, newId: Uuid, rowId: Uuid, now: Time)
      returns (r: Result<Event, CreateError>)
      requires forall k :: k in visible ==> k in keys && keys[k] == visible[k]
      modifies this
      ensures !ValidRequest(req) ==> r == Err(InvalidRequest) && Rows() == old(Rows())
      ensures r == Err(InvalidRequest) <==> req.eventType == "" || req.idempotencyKey == "" || req.data == ""
      ensures ValidRequest(req) && KeyOf(tenantId, req) in visible ==>
                Rows() == old(Rows())
                && r == match Stored(Rows(), tenantId, visible[KeyOf(tenantId, req)]) case Some(e) => Ok(e) case None => Err(EventMissing)
      ensures ValidRequest(req) && KeyOf(tenantId, req) !in visible ==>
                match Inserted(old(Rows()), tenantId, req, newId, rowId, now)
                case Ok(s) => Rows() == s && r == Ok(NewEvent(tenantId, req, newId))
                case Err(e) => Rows() == old(Rows()) && r == Err(InsertFailed(e))
      // A new event carries the request, in the answer and in the table; its key leads to it, and its outbox row announces it.
      ensures ValidRequest(req) && IdempotencyKey(tenantId, req.idempotencyKey) !in visible ==>
                (r.Ok? <==> newId !in old(events) && IdempotencyKey(tenantId, req.idempotencyKey) !in old(keys))
      ensures r.Ok? && IdempotencyKey(tenantId, req.idempotencyKey) !in visible ==>
                && Requested(r.value, tenantId, req) && r.value.id == newId && r.value.createdAt == ZERO_TIME
                && newId in events && Requested(events[newId], tenantId, req) && events[newId].id == newId && events[newId].createdAt == now
                && keys == old(keys)[IdempotencyKey(tenantId, req.idempotencyKey) := newId]
                && rowId in outbox
                && outbox[rowId].message.eventId == newId && outbox[rowId].message.tenantId == tenantId
                && outbox[rowId].message.eventType == req.eventType
                && outbox[rowId].createdAt == now && outbox[rowId].publishedAt.None? && outbox[rowId].attempts == 0
      // A key that was found answers with an event of this tenant, and nothing changes.
      ensures r.Ok? && IdempotencyKey(tenantId, req.idempotencyKey) in visible ==>
                && Rows() == old(Rows()) && r.value.tenantId == tenantId
                && visible[IdempotencyKey(tenantId, req.idempotencyKey)] in events
                && r.value == events[visible[IdempotencyKey(tenantId, req.idempotencyKey)]]
    {
      if req.eventType == "" || req.idempotencyKey == "" || req.data == "" {
        return Err(InvalidRequest);
      }
      var key := IdempotencyKey(tenantId, req.idempotencyKey);
      if key in visible {
        var found := Stored(Rows(), tenantId, visible[key]);
        if found.None? {
          return Err(EventMissing);
        }
        return Ok(found.value);
      }
      var event := NewEvent(tenantId, req, newId);
      if newId in events {
        return Err(InsertFailed(UniqueViolation));
      }
      var txEvents := events[newId := event.(createdAt := now)];
      if key in keys {
        return Err(InsertFailed(UniqueViolation));
      }
      var txKeys := keys[key := newId];
      var txOutbox := outbox[rowId := OutboxRow(MessageOf(event), now, None, 0)];
      events, keys, outbox := txEvents, txKeys, txOutbox;
      return Ok(event);
    }

    /** One tick of the publisher over the unpublished rows it locked. The marks are lost if the process dies before the
        commit; what reached the broker stays there. */
    method PublishBatch(rows: seq<Uuid>, sent: seq<SendResult>, commits: bool, now: Time) returns (reached: seq<Message>)
      requires |sent| == |rows| && Distinct(rows) && forall id :: id in rows ==> Unpublished(outbox, id)
      modifies this`outbox
      ensures outbox == if commits then MarkedRows(old(outbox), rows, sent, now) else old(outbox)
      ensures reached == Reached(old(outbox), rows, sent)
      // Row by row: an acknowledged one is published now, a failed one counts an attempt and stays unpublished.
      ensures commits ==> outbox.Keys == old(outbox).Keys && forall k :: 0 <= k < |rows| ==>
                rows[k] in old(outbox) && var was, is_ := old(outbox)[rows[k]], outbox[rows[k]];
                && is_.message == was.message && is_.createdAt == was.createdAt
                && (if sent[k].Acknowledged? then is_.publishedAt == Some(now) && is_.attempts == was.attempts
                    else is_.publishedAt.None? && is_.attempts == was.attempts + 1)
      ensures forall id :: id in old(outbox) && (id !in rows || !commits) ==> id in outbox && outbox[id] == old(outbox)[id]
      ensures forall m :: m in reached <==>
                exists k :: 0 <= k < |rows| && rows[k] in old(outbox) && old(outbox)[rows[k]].message == m && (sent[k].Acknowledged? || sent[k] == Failed(true))
    {
      var tx := outbox;
      reached := [];
      for i := 0 to |rows|
        invariant tx == MarkedRows(outbox, rows[..i], sent[..i], now) && reached == Reached(outbox, rows[..i], sent[..i])
        invariant tx.Keys == outbox.Keys
      {
        assert rows[..i + 1][..i] == rows[..i] && sent[..i + 1][..i] == sent[..i];
        assert rows[i] in rows;
        var row := tx[rows[i]];
        if sent[i].Failed? {
          if sent[i].reached {
            reached := reached + [outbox[rows[i]].message];
          }
          tx := tx[rows[i] := row.(attempts := row.attempts + 1)];
          continue;
        }
        reached := reached + [outbox[rows[i]].message];
        tx := tx[rows[i] := row.(publishedAt := Some(now))];
      }
      assert rows[..|rows|] == rows && sent[..|sent|] == sent;
      MarkedExactly(outbox, rows, sent, now);
      ReachedExactly(outbox, rows, sent);
      if commits {
        outbox := tx;
      }
    }
  }

  lemma {:induction false} MarkedExactly(outbox: map<Uuid, OutboxRow>, rows: seq<Uuid>, sent: seq<SendResult>, now: Time)
    requires |sent| == |rows| && Distinct(rows) && forall id :: id in rows ==> Unpublished(outbox, id)
    ensures var after := MarkedRows(outbox, rows, sent, now);
            && after.Keys == outbox.Keys
            && (forall k :: 0 <= k < |rows| ==>
                  rows[k] in outbox && var was, is_ := outbox[rows[k]], after[rows[k]];
                  && is_.message == was.message && is_.createdAt == was.createdAt
                  && (if sent[k].Acknowledged? then is_.publishedAt == Some(now) && is_.attempts == was.attempts
                      else is_.publishedAt.None? && is_.attempts == was.attempts + 1))
            && (forall id :: id in outbox && id !in rows ==> after[id] == outbox[id])
    decreases |rows|
  {
    if rows != [] {
      var n := |rows| - 1;
      MarkedExactly(outbox, rows[..n], sent[..n], now);
      assert rows[n] in rows && rows[n] !in rows[..n];
    }
  }

  lemma {:induction false} ReachedExactly(outbox: map<Uuid, OutboxRow>, rows: seq<Uuid>, sent: seq<SendResult>)
    requires |sent| == |rows| && forall id :: id in rows ==> id in outbox
    ensures forall m :: m in Reached(outbox, rows, sent) <==>
              exists k :: 0 <= k < |rows| && rows[k] in outbox && outbox[rows[k]].message == m && (sent[k].Acknowledged? || sent[k] == Failed(true))
    decreases |rows|
  {
    if rows != [] {
      var n := |rows| - 1;
      ReachedExactly(outbox, rows[..n], sent[..n]);
      assert rows[n] in rows;
      forall m
        ensures m in Reached(outbox, rows, sent) <==>
                exists k :: 0 <= k < |rows| && rows[k] in outbox && outbox[rows[k]].message == m && (sent[k].Acknowledged? || sent[k] == Failed(true))
      {
        if m in Reached(outbox, rows[..n], sent[..n]) {
          var k :| 0 <= k < n && rows[..n][k] in outbox && outbox[rows[..n][k]].message == m && (sent[..n][k].Acknowledged? || sent[..n][k] == Failed(true));
          assert rows[k] == rows[..n][k] && sent[k] == sent[..n][k];
        }
        if k :| 0 <= k < |rows| && rows[k] in outbox && outbox[rows[k]].message == m && (sent[k].Acknowledged? || sent[k] == Failed(true)) && k < n {
          assert rows[..n][k] == rows[k] && sent[..n][k] == sent[k];
        }
      }
    }
  }

  // ----- interleaved transactions -----

  /** A transaction whose lookup found nothing and which has yet to insert. */
  datatype Open = Open(tenantId: Uuid, req: PublishRequest)

  /** What a successful call answered, and whether it was the one that created the event. */
  datatype Reply = Reply(key: IdempotencyKey, event: Event, created: bool)

  datatype Intake = Intake(now: Time, store: Store, pending: map<nat, Open>, replies: seq<Reply>, broker: set<Message>)

  datatype Move =
    | Lookup(tx: nat, tenantId: Uuid, req: PublishRequest)
    | Insert(tx: nat, eventId: Uuid, rowId: Uuid)
    | Abandon(tx: nat)
    | Publish(rows: seq<Uuid>, sent: seq<SendResult>, commits: bool)
    | Wait(to: Time)

  ghost predicate Possible(w: Intake, m: Move) {
    match m
    case Lookup(tx, _, req) => tx !in w.pending && ValidRequest(req)
    case Insert(tx, eventId, rowId) => tx in w.pending && eventId !in w.store.events && rowId !in w.store.outbox
    case Abandon(tx) => tx in w.pending
    case Publish(rows, sent, _) => |sent| == |rows| && Distinct(rows) && forall id :: id in rows ==> Unpublished(w.store.outbox, id)
    case Wait(to) => w.now <= to
  }

  function Made(w: Intake, m: Move): Intake
    requires m.Insert? || m.Abandon? ==> m.tx in w.pending
    requires m.Publish? ==> |m.sent| == |m.rows|
  {
    match m
    case Lookup(tx, tenantId, req) =>
      if KeyOf(tenantId, req) in w.store.keys then
        match Stored(w.store, tenantId, w.store.keys[KeyOf(tenantId, req)])
        case Some(e) => w.(replies := w.replies + [Reply(KeyOf(tenantId, req), e, false)])
        case None => w
      else w.(pending := w.pending[tx := Open(tenantId, req)])
    case Insert(tx, eventId, rowId) =>
      var o := w.pending[tx];
      var closed := w.(pending := w.pending - {tx});
      (match Inserted(w.store, o.tenantId, o.req, eventId, rowId, w.now)
       case Ok(s) => closed.(store := s, replies := w.replies + [Reply(KeyOf(o.tenantId, o.req), NewEvent(o.tenantId, o.req, eventId), true)])
       case Err(_) => closed)
    case Abandon(tx) => w.(pending := w.pending - {tx})
    case Publish(rows, sent, commits) =>
      w.(broker := w.broker + Elements(Reached(w.store.outbox, rows, sent)),
         store := if commits then w.store.(outbox := MarkedRows(w.store.outbox, rows, sent, w.now)) else w.store)
    case Wait(to) => w.(now := to)
  }

  ghost predicate HasKey(keys: map<IdempotencyKey, Uuid>, id: Uuid) {
    exists k :: k in keys && keys[k] == id
  }

  ghost predicate HasRow(outbox: map<Uuid, OutboxRow>, id: Uuid) {
    exists r :: r in outbox && outbox[r].message.eventId == id
  }

  ghost predicate KeysCorrespond(events: map<Uuid, Event>, keys: map<IdempotencyKey, Uuid>) {
    && (forall id :: id in events ==> events[id].id == id && HasKey(keys, id))
    && (forall k :: k in keys ==> keys[k] in events && events[keys[k]].tenantId == k.tenantId)
    && (forall k, l :: k in keys && l in keys && keys[k] == keys[l] ==> k == l)
  }

  ghost predicate RowsCorrespond(events: map<Uuid, Event>, outbox: map<Uuid, OutboxRow>) {
    && (forall id :: id in events ==> events[id].id == id && HasRow(outbox, id))
    && (forall r :: r in outbox ==> outbox[r].message.eventId in events && outbox[r].message == MessageOf(events[outbox[r].message.eventId]))
    && (forall r, q :: r in outbox && q in outbox && outbox[r].message.eventId == outbox[q].message.eventId ==> r == q)
  }

  /** Events, idempotency keys and outbox rows are in one-to-one correspondence. */
  ghost predicate Corresponds(s: Store) {
    KeysCorrespond(s.events, s.keys) && RowsCorrespond(s.events, s.outbox)
  }

  /** Two events that differ at most in their creation time. */
  predicate SameEvent(a: Event, b: Event) {
    a.(createdAt := ZERO_TIME) == b.(createdAt := ZERO_TIME)
  }

  /** A reply carries the stored event, except that its creator is told the zero time. */
  ghost predicate Honoured(s: Store, r: Reply) {
    && r.key in s.keys && s.keys[r.key] in s.events
    && (var stored := s.events[s.keys[r.key]]; r.event == if r.created then stored.(createdAt := ZERO_TIME) else stored)
  }

  /** Of all calls with one key at most one created the event. */
  ghost predicate OneCreator(replies: seq<Reply>) {
    forall i, j :: 0 <= i < j < |replies| && replies[i].created && replies[j].created ==> replies[i].key != replies[j].key
  }

  /** A published row reached the broker, and the broker carries nothing but messages of stored events. */
  ghost predicate BrokerAgrees(w: Intake) {
    && (forall r :: r in w.store.outbox && w.store.outbox[r].publishedAt.Some? ==> w.store.outbox[r].message in w.broker)
    && (forall m :: m in w.broker ==> m.eventId in w.store.events && m == MessageOf(w.store.events[m.eventId]))
  }

  ghost predicate IntakeInv(w: Intake) {
    && Corresponds(w.store)
    && (forall i :: 0 <= i < |w.replies| ==> Honoured(w.store, w.replies[i]))
    && OneCreator(w.replies)
    && BrokerAgrees(w)
  }

  lemma {:induction false} MarkingKeepsMessages(outbox: map<Uuid, OutboxRow>, rows: seq<Uuid>, sent: seq<SendResult>, now: Time)
    requires |sent| == |rows|
    ensures var after := MarkedRows(outbox, rows, sent, now);
            && after.Keys == outbox.Keys
            && (forall r :: r in outbox ==> after[r].message == outbox[r].message && outbox[r].attempts <= after[r].attempts)
            && (forall r :: r in outbox && r !in rows ==> after[r] == outbox[r])
            && (forall r :: r in outbox && after[r].publishedAt.Some? ==>
                  outbox[r].publishedAt.Some? || outbox[r].message in Reached(outbox, rows, sent))
    ensures forall m :: m in Reached(outbox, rows, sent) ==> exists r :: r in outbox && r in rows && outbox[r].message == m
    decreases |rows|
  {
    if rows != [] {
      var n := |rows| - 1;
      MarkingKeepsMessages(outbox, rows[..n], sent[..n], now);
      assert rows[n] in rows;
    }
  }

  lemma LookupAlwaysFindsItsEvent(w: Intake, m: Move)
    requires IntakeInv(w) && m.Lookup? && KeyOf(m.tenantId, m.req) in w.store.keys
    ensures Stored(w.store, m.tenantId, w.store.keys[KeyOf(m.tenantId, m.req)]).Some?
    ensures Made(w, m).replies == w.replies + [Reply(KeyOf(m.tenantId, m.req), w.store.events[w.store.keys[KeyOf(m.tenantId, m.req)]], false)]
  {
  }

  lemma InsertKeepsKeys(events: map<Uuid, Event>, keys: map<IdempotencyKey, Uuid>, e: Event, k: IdempotencyKey)
    requires KeysCorrespond(events, keys) && e.id !in events && k !in keys && k.tenantId == e.tenantId
    ensures KeysCorrespond(events[e.id := e], keys[k := e.id])
  {
    var keys' := keys[k := e.id];
    forall id | id in events[e.id := e]
      ensures HasKey(keys', id)
    {
      if id == e.id {
        assert keys'[k] == id;
      } else {
        var l :| l in keys && keys[l] == id;
        assert keys'[l] == id;
      }
    }
  }

  lemma InsertKeepsRows(events: map<Uuid, Event>, outbox: map<Uuid, OutboxRow>, e: Event, rowId: Uuid, row: OutboxRow)
    requires RowsCorrespond(events, outbox) && e.id !in events && rowId !in outbox && row.message == MessageOf(e)
    ensures RowsCorrespond(events[e.id := e], outbox[rowId := row])
  {
    var outbox' := outbox[rowId := row];
    forall id | id in events[e.id := e]
      ensures HasRow(outbox', id)
    {
      if id == e.id {
        assert outbox'[rowId].message.eventId == id;
      } else {
        var r :| r in outbox && outbox[r].message.eventId == id;
        assert outbox'[r].message.eventId == id;
      }
    }
  }

  lemma InsertKeepsInv(w: Intake, m: Move)
    requires IntakeInv(w) && m.Insert? && Possible(w, m)
    ensures IntakeInv(Made(w, m))
  {
    var o := w.pending[m.tx];
    if KeyOf(o.tenantId, o.req) !in w.store.keys {
      var e := NewEvent(o.tenantId, o.req, m.eventId).(createdAt := w.now);
      InsertKeepsKeys(w.store.events, w.store.keys, e, KeyOf(o.tenantId, o.req));
      InsertKeepsRows(w.store.events, w.store.outbox, e, m.rowId, OutboxRow(MessageOf(e), w.now, None, 0));
      NewEventKeepsReplies(w, Made(w, m), e, KeyOf(o.tenantId, o.req));
      NewEventKeepsBroker(w, Made(w, m), e, m.rowId);
    }
  }

  lemma NewEventKeepsReplies(w: Intake, w': Intake, e: Event, k: IdempotencyKey)
    requires forall i :: 0 <= i < |w.replies| ==> Honoured(w.store, w.replies[i])
    requires e.id !in w.store.events && k !in w.store.keys
    requires w'.store.events == w.store.events[e.id := e] && w'.store.keys == w.store.keys[k := e.id]
    requires w'.replies == w.replies + [Reply(k, e.(createdAt := ZERO_TIME), true)] && OneCreator(w.replies)
    ensures forall i :: 0 <= i < |w'.replies| ==> Honoured(w'.store, w'.replies[i])
    ensures OneCreator(w'.replies)
  {
    forall i | 0 <= i < |w'.replies|
      ensures Honoured(w'.store, w'.replies[i])
    {
      if i < |w.replies| {
        assert Honoured(w.store, w.replies[i]);
      }
    }
  }

  lemma NewEventKeepsBroker(w: Intake, w': Intake, e: Event, rowId: Uuid)
    requires BrokerAgrees(w) && e.id !in w.store.events && rowId !in w.store.outbox
    requires w'.store.events == w.store.events[e.id := e] && w'.broker == w.broker
    requires rowId in w'.store.outbox && w'.store.outbox == w.store.outbox[rowId := w'.store.outbox[rowId]]
    requires w'.store.outbox[rowId].publishedAt.None?
    ensures BrokerAgrees(w')
  {
  }

  lemma MarksKeepRows(events: map<Uuid, Event>, outbox: map<Uuid, OutboxRow>, outbox': map<Uuid, OutboxRow>)
    requires RowsCorrespond(events, outbox) && outbox'.Keys == outbox.Keys
    requires forall r :: r in outbox ==> outbox'[r].message == outbox[r].message
    ensures RowsCorrespond(events, outbox')
  {
    forall id | id in events
      ensures HasRow(outbox', id)
    {
      assert HasRow(outbox, id);
      var r :| r in outbox && outbox[r].message.eventId == id;
      assert outbox'[r].message == outbox[r].message;
    }
  }

  lemma PublishKeepsInv(w: Intake, m: Move)
    requires IntakeInv(w) && m.Publish? && Possible(w, m)
    ensures IntakeInv(Made(w, m))
  {
    var w' := Made(w, m);
    var marked := MarkedRows(w.store.outbox, m.rows, m.sent, w.now);
    var reached := Reached(w.store.outbox, m.rows, m.sent);
    MarkingKeepsMessages(w.store.outbox, m.rows, m.sent, w.now);
    MarksKeepRows(w.store.events, w.store.outbox, marked);
    assert w'.broker == w.broker + Elements(reached);
    PublishKeepsBroker(w, w', reached);
    forall i | 0 <= i < |w'.replies|
      ensures Honoured(w'.store, w'.replies[i])
    {
      assert Honoured(w.store, w.replies[i]);
    }
  }

  lemma PublishKeepsBroker(w: Intake, w': Intake, reached: seq<Message>)
    requires BrokerAgrees(w) && RowsCorrespond(w.store.events, w.store.outbox)
    requires w'.store.events == w.store.events && w'.broker == w.broker + Elements(reached)
    requires w'.store.outbox.Keys == w.store.outbox.Keys
    requires forall r :: r in w.store.outbox ==> w'.store.outbox[r].message == w.store.outbox[r].message
    requires forall r :: r in w.store.outbox && w'.store.outbox[r].publishedAt.Some? ==>
               w.store.outbox[r].publishedAt.Some? || w.store.outbox[r].message in reached
    requires forall m :: m in reached ==> exists r :: r in w.store.outbox && w.store.outbox[r].message == m
    ensures BrokerAgrees(w')
  {
    forall m | m in w'.broker
      ensures m.eventId in w'.store.events && m == MessageOf(w'.store.events[m.eventId])
    {
      if m !in w.broker {
        assert m in reached;
      }
    }
  }

  lemma MoveKeepsInv(w: Intake, m: Move)
    requires IntakeInv(w) && Possible(w, m)
    ensures IntakeInv(Made(w, m))
  {
    if m.Insert? {
      InsertKeepsInv(w, m);
    } else if m.Publish? {
      PublishKeepsInv(w, m);
    } else if m.Lookup? && KeyOf(m.tenantId, m.req) in w.store.keys {
      LookupAlwaysFindsItsEvent(w, m);
    }
  }

  predicate Fresh(w: Intake) {
    w.store == Store(map[], map[], map[]) && w.pending == map[] && w.replies == [] && w.broker == {}
  }

  ghost predicate IntakeRun(ws: seq<Intake>, ms: seq<Move>) {
    && |ws| == |ms| + 1
    && Fresh(ws[0])
    && forall i :: 0 <= i < |ms| ==> Possible(ws[i], ms[i]) && ws[i + 1] == Made(ws[i], ms[i])
  }

  /** After any interleaving, events, keys and outbox rows correspond one to one, and the broker holds every published
      message and no invented one. */
  lemma {:induction false} IngestionIsConsistent(ws: seq<Intake>, ms: seq<Move>, i: nat)
    requires IntakeRun(ws, ms) && i < |ws|
    ensures IntakeInv(ws[i])
    ensures |ws[i].store.keys| == |ws[i].store.events| == |ws[i].store.outbox|
  {
    if i > 0 {
      IngestionIsConsistent(ws, ms, i - 1);
      MoveKeepsInv(ws[i - 1], ms[i - 1]);
    }
    SameSizes(ws[i].store);
  }

  lemma {:induction false} ImageSize<K>(m: map<K, Uuid>, image: set<Uuid>)
    requires forall k, l :: k in m && l in m && m[k] == m[l] ==> k == l
    requires forall id :: id in image <==> exists k :: k in m && m[k] == id
    ensures |image| == |m|
    decreases |m|
  {
    if m == map[] {
      assert image == {};
    } else {
      var k :| k in m.Keys;
      var fewer := m - {k};
      assert fewer.Keys == m.Keys - {k};
      assert |fewer| == |m| - 1;
      forall id | id in image - {m[k]}
        ensures exists l :: l in fewer && fewer[l] == id
      {
        var l :| l in m && m[l] == id;
        assert l in fewer && fewer[l] == id;
      }
      ImageSize(fewer, image - {m[k]});
    }
  }

  lemma SameSizes(s: Store)
    requires Corresponds(s)
    ensures |s.keys| == |s.events| == |s.outbox|
  {
    KeySize(s.events, s.keys);
    RowSize(s.events, s.outbox);
  }

  lemma KeySize(events: map<Uuid, Event>, keys: map<IdempotencyKey, Uuid>)
    requires KeysCorrespond(events, keys)
    ensures |keys| == |events|
  {
    forall id | id in events.Keys
      ensures exists k :: k in keys && keys[k] == id
    {
      assert HasKey(keys, id);
    }
    ImageSize(keys, events.Keys);
    assert |events.Keys| == |events|;
  }

  lemma RowSize(events: map<Uuid, Event>, outbox: map<Uuid, OutboxRow>)
    requires RowsCorrespond(events, outbox)
    ensures |outbox| == |events|
  {
    var about := map r | r in outbox :: outbox[r].message.eventId;
    forall id | id in events.Keys
      ensures exists r :: r in about && about[r] == id
    {
      assert HasRow(outbox, id);
      var r :| r in outbox && outbox[r].message.eventId == id;
      assert r in about && about[r] == id;
    }
    ImageSize(about, events.Keys);
    assert about.Keys == outbox.Keys;
    assert |about.Keys| == |about| && |outbox.Keys| == |outbox| && |events.Keys| == |events|;
  }

  /** All successful calls with one tenant and key answer with the same event, up to its creation time; they answer alike in
      full unless one, and only one, is the call that created the event, and the stored creation time is not zero. At most
      one call created it, and calls with different keys never answer with the same event. */
  lemma RepliesAgree(ws: seq<Intake>, ms: seq<Move>, i: nat, a: nat, b: nat)
    requires IntakeRun(ws, ms) && i < |ws| && a < |ws[i].replies| && b < |ws[i].replies|
    ensures var r, q, s := ws[i].replies[a], ws[i].replies[b], ws[i].store;
            && (r.key == q.key <==> SameEvent(r.event, q.event))
            && (r.key == q.key <==> r.event.id == q.event.id)
            && r.key in s.keys && s.keys[r.key] in s.events
            && (r.key == q.key ==> (r.event == q.event <==> r.created == q.created || s.events[s.keys[r.key]].createdAt == ZERO_TIME))
            && (r.key == q.key && r.created && q.created ==> a == b)
  {
    IngestionIsConsistent(ws, ms, i);
    assert Honoured(ws[i].store, ws[i].replies[a]) && Honoured(ws[i].store, ws[i].replies[b]);
  }

  /** What one call answers: a call that found its key, the event as it is stored now and in every later world; the call that
      created it, that event with the zero time. */
  lemma RepliesStayTrue(ws: seq<Intake>, ms: seq<Move>, i: nat, j: nat, a: nat)
    requires IntakeRun(ws, ms) && i <= j < |ws| && a < |ws[i].replies|
    ensures var r, s := ws[i].replies[a], ws[j].store;
            && r.event.id in s.events && s.events[r.event.id].tenantId == r.key.tenantId
            && r.event == if r.created then s.events[r.event.id].(createdAt := ZERO_TIME) else s.events[r.event.id]
  {
    IngestionIsConsistent(ws, ms, i);
    assert Honoured(ws[i].store, ws[i].replies[a]);
    EventsStay(ws, ms, i, j, ws[i].replies[a].event.id);
  }

  /** At step `c` a call of this tenant with this key looked up, and its request is what `e` carries. */
  ghost predicate AskedAt(ms: seq<Move>, c: nat, key: IdempotencyKey, e: Event)
    requires c < |ms|
  {
    && ms[c].Lookup? && ms[c].tenantId == key.tenantId && ms[c].req.idempotencyKey == key.key
    && e.tenantId == key.tenantId && e.eventType == ms[c].req.eventType && e.payload == ms[c].req.data
    && e.occurredAt == ms[c].req.occurredAt && e.source == ms[c].req.source && e.metadata == ms[c].req.metadata
  }

  ghost predicate Asked(ms: seq<Move>, i: nat, key: IdempotencyKey, e: Event)
    requires i <= |ms|
  {
    exists c :: 0 <= c < i && AskedAt(ms, c, key, e)
  }

  /** A pending transaction is one whose lookup is among the moves. */
  lemma {:induction false} PendingLookedUp(ws: seq<Intake>, ms: seq<Move>, i: nat, tx: nat) returns (c: nat)
    requires IntakeRun(ws, ms) && i < |ws| && tx in ws[i].pending
    ensures c < i && ms[c].Lookup? && Open(ms[c].tenantId, ms[c].req) == ws[i].pending[tx]
  {
    assert i > 0;
    assert ws[i] == Made(ws[i - 1], ms[i - 1]);
    if tx in ws[i - 1].pending {
      c := PendingLookedUp(ws, ms, i - 1, tx);
    } else {
      c := i - 1;
    }
  }

  /** What is stored was asked for: for every idempotency key some earlier call of that tenant with that key carried the type,
      data, time, source and metadata that the stored event has. */
  lemma {:induction false} StoredWasAskedFor(ws: seq<Intake>, ms: seq<Move>, i: nat, key: IdempotencyKey)
    requires IntakeRun(ws, ms) && i < |ws| && key in ws[i].store.keys
    ensures ws[i].store.keys[key] in ws[i].store.events && Asked(ms, i, key, ws[i].store.events[ws[i].store.keys[key]])
  {
    assert i > 0;
    var w, m := ws[i - 1], ms[i - 1];
    IngestionIsConsistent(ws, ms, i - 1);
    assert ws[i] == Made(w, m);
    KeyComesFromInsert(w, m, key);
    var e := ws[i].store.events[ws[i].store.keys[key]];
    if key in w.store.keys {
      StoredWasAskedFor(ws, ms, i - 1, key);
      var c :| 0 <= c < i - 1 && AskedAt(ms, c, key, e);
    } else {
      var c := PendingLookedUp(ws, ms, i - 1, m.tx);
      assert AskedAt(ms, c, key, e);
    }
  }

  lemma KeyComesFromInsert(w: Intake, m: Move, key: IdempotencyKey)
    requires IntakeInv(w) && Possible(w, m) && key in Made(w, m).store.keys
    ensures Made(w, m).store.keys[key] in Made(w, m).store.events
    ensures var e := Made(w, m).store.events[Made(w, m).store.keys[key]];
            if key in w.store.keys then w.store.keys[key] in w.store.events && e == w.store.events[w.store.keys[key]]
            else m.Insert? && m.tx in w.pending && w.pending[m.tx].tenantId == key.tenantId && w.pending[m.tx].req.idempotencyKey == key.key
                 && Requested(e, key.tenantId, w.pending[m.tx].req)
  {
  }

  /** A transaction that loses the race leaves the tables as they were. */
  lemma LosersLeaveNothing(w: Intake, m: Move)
    requires m.Insert? && Possible(w, m) && KeyOf(w.pending[m.tx].tenantId, w.pending[m.tx].req) in w.store.keys
    ensures Made(w, m).store == w.store && Made(w, m).replies == w.replies && m.tx !in Made(w, m).pending
  {
  }

  lemma {:induction false} EventsStay(ws: seq<Intake>, ms: seq<Move>, i: nat, j: nat, id: Uuid)
    requires IntakeRun(ws, ms) && i <= j < |ws| && id in ws[i].store.events
    ensures id in ws[j].store.events && ws[j].store.events[id] == ws[i].store.events[id]
    decreases j
  {
    if i < j {
      EventsStay(ws, ms, i, j - 1, id);
      assert ws[j] == Made(ws[j - 1], ms[j - 1]);
    }
  }

  /** A published row is never marked, sent for or changed again. */
  lemma {:induction false} PublishedIsFrozen(ws: seq<Intake>, ms: seq<Move>, i: nat, j: nat, r: Uuid)
    requires IntakeRun(ws, ms) && i <= j < |ws| && r in ws[i].store.outbox && ws[i].store.outbox[r].publishedAt.Some?
    ensures r in ws[j].store.outbox && ws[j].store.outbox[r] == ws[i].store.outbox[r]
    ensures forall k :: i <= k < j && ms[k].Publish? ==> r !in ms[k].rows
    decreases j
  {
    if i < j {
      PublishedIsFrozen(ws, ms, i, j - 1, r);
      var w, m := ws[j - 1], ms[j - 1];
      assert Possible(w, m) && ws[j] == Made(w, m);
      if m.Publish? {
        assert r !in m.rows;
        MarkingKeepsMessages(w.store.outbox, m.rows, m.sent, w.now);
      }
    }
  }

  predicate Announces(m: Message, e: Event) {
    m.eventId == e.id && m.tenantId == e.tenantId && m.eventType == e.eventType
  }

  /** Nothing accepted is forgotten: whatever happens, the event stays as it is, and its outbox row is either still waiting
      for the publisher or its message is in the broker. */
  lemma AcceptedIsNeverForgotten(ws: seq<Intake>, ms: seq<Move>, i: nat, j: nat, id: Uuid)
    requires IntakeRun(ws, ms) && i <= j < |ws| && id in ws[i].store.events
    ensures id in ws[j].store.events && ws[j].store.events[id] == ws[i].store.events[id]
    ensures exists r :: r in ws[j].store.outbox && Announces(ws[j].store.outbox[r].message, ws[i].store.events[id])
                        && (ws[j].store.outbox[r].publishedAt.None? || ws[j].store.outbox[r].message in ws[j].broker)
  {
    EventsStay(ws, ms, i, j, id);
    IngestionIsConsistent(ws, ms, j);
    assert HasRow(ws[j].store.outbox, id);
    var r :| r in ws[j].store.outbox && ws[j].store.outbox[r].message.eventId == id;
    assert BrokerAgrees(ws[j]);
  }
}
