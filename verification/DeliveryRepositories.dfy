/** delivery-service/internal/delivery/repository.go and service.go. Each method works on a transaction's own copy of a
    table and commits it by assigning the field, so a method that returns an error leaves no trace. */
module DeliveryRepositories {
  import opened Basics
  import opened DeliveryModel
  import opened DeliveryTables
  import opened DeliveryOutcomes
  import opened DeliveryLaws
  import opened KeysetPaging

  /** What trimming and upper-casing the status parameter leaves. */
  datatype StatusFilter = AnyStatus | Only(status: Status) | Unknown

  datatype ListFilter = ListFilter(limit: int, cursor: string, status: StatusFilter, endpointId: Option<Uuid>, eventId: Option<Uuid>)

  datatype DeliveryPage = DeliveryPage(items: seq<Delivery>, nextCursor: string)

  datatype ListError = InvalidStatus | InvalidPosition | NoSuchDelivery

  datatype AttemptPage = AttemptPage(items: seq<(int, Attempt)>, nextCursor: string)

  function KeyOf(d: Delivery): Key {
    Key(d.createdAt, d.id)
  }

  ghost function KeysOf(items: seq<Delivery>): seq<Key> {
    seq(|items|, i requires 0 <= i < |items| => KeyOf(items[i]))
  }

  /** The WHERE clause of List without its cursor. */
  predicate Matches(d: Delivery, tenantId: Uuid, status: StatusFilter, endpointId: Option<Uuid>, eventId: Option<Uuid>) {
    && d.tenantId == tenantId
    && (status.Only? ==> d.status == status.status)
    && (endpointId.Some? ==> d.endpointId == endpointId.value)
    && (eventId.Some? ==> d.eventId == eventId.value)
  }

  function MatchingKeys(deliveries: map<Uuid, Delivery>, tenantId: Uuid, status: StatusFilter,
                        endpointId: Option<Uuid>, eventId: Option<Uuid>): set<Key>
  {
    set id | id in deliveries && Matches(deliveries[id], tenantId, status, endpointId, eventId) :: KeyOf(deliveries[id])
  }

  /** The status List really filters by: the dead letter queue only admits DLQ or nothing. */
  function EffectiveStatus(filter: ListFilter, dlqOnly: bool): Option<StatusFilter> {
    if dlqOnly then (if filter.status == AnyStatus || filter.status == Only(Dlq) then Some(Only(Dlq)) else None)
    else if filter.status == Unknown then None
    else Some(filter.status)
  }

  ghost predicate Keyed(deliveries: map<Uuid, Delivery>) {
    forall id :: id in deliveries ==> deliveries[id].id == id
  }

  /** `d` is a fresh start for the order of `original`: pending, due at once, never attempted. */
  predicate IsReplay(d: Delivery, original: Delivery, now: Time) {
    && OrderOf(d) == OrderOf(original) && d.replayOf == Some(original.id)
    && d.status == Pending && d.attemptCount == 0 && d.lastAttemptAt.None? && d.leaseOwner.None? && d.leaseExpiresAt.None?
    && d.completedAt.None? && d.nextAttemptAt == d.createdAt == d.updatedAt == now
  }

  /** What the request asks of a row: DLQ in the dead letter listing, else the status given, and the endpoint and event given. */
  predicate AskedFor(d: Delivery, filter: ListFilter, dlqOnly: bool) {
    && (dlqOnly ==> d.status == Dlq)
    && (!dlqOnly && filter.status.Only? ==> d.status == filter.status.status)
    && (filter.endpointId.Some? ==> d.endpointId == filter.endpointId.value)
    && (filter.eventId.Some? ==> d.eventId == filter.eventId.value)
  }

  predicate OlderThan(d: Delivery, pos: Position) {
    pos.After? ==> d.createdAt < pos.key.createdAt || (d.createdAt == pos.key.createdAt && d.id < pos.key.id)
  }

  /** Who sees what. The items are rows of this tenant as Get finds them, with what was asked for, older than the cursor, newest
      first, at most the limit of 1 to 100, which is 50 if not given. Every such row that is not shown is older than all that are,
      and then the page is full and leads on. */
  ghost predicate IsListing(deliveries: map<Uuid, Delivery>, tenantId: Uuid, filter: ListFilter, dlqOnly: bool, pos: Position,
                            items: seq<Delivery>, leadsOn: bool)
  {
    var limit := if 1 <= filter.limit <= 100 then filter.limit else 50;
    && |items| <= limit
    && (forall d :: d in items ==>
          && d.tenantId == tenantId && Found(Tables(deliveries, map[]), tenantId, d.id) == Some(d)
          && AskedFor(d, filter, dlqOnly) && OlderThan(d, pos))
    && (forall i, j :: 0 <= i < j < |items| ==>
          items[i].createdAt > items[j].createdAt || (items[i].createdAt == items[j].createdAt && items[i].id > items[j].id))
    && (forall id :: id in deliveries && deliveries[id].tenantId == tenantId && AskedFor(deliveries[id], filter, dlqOnly)
                     && OlderThan(deliveries[id], pos) && deliveries[id] !in items ==>
          |items| == limit && leadsOn
          && forall d :: d in items ==> d.createdAt > deliveries[id].createdAt || (d.createdAt == deliveries[id].createdAt && d.id > id))
  }

  /** The page cut from the rows fetched. */
  lemma PageOfRows(keys: set<Key>, pos: Position, limit: nat, items: seq<Delivery>, rows: seq<Key>, shown: seq<Delivery>)
    requires limit > 0 && Fetched(keys, pos, limit, rows) && KeysOf(items) == rows
    requires shown == if |items| > limit then items[..limit] else items
    ensures IsPage(keys, pos, limit, KeysOf(shown), NextPosition(rows, limit))
    ensures |items| == |rows| && (|items| > limit ==> |shown| == limit && shown[limit - 1] == items[limit - 1])
    ensures forall d :: d in shown ==> d in items
  {
    assert |KeysOf(items)| == |items|;
    assert KeysOf(shown) == Shown(rows, limit);
  }

  lemma ShownIsListed(deliveries: map<Uuid, Delivery>, items: seq<Delivery>, id: Uuid)
    requires Keyed(deliveries) && (forall d :: d in items ==> d.id in deliveries && d == deliveries[d.id]) && id in deliveries
    ensures KeyOf(deliveries[id]) in KeysOf(items) ==> deliveries[id] in items
  {
    if KeyOf(deliveries[id]) in KeysOf(items) {
      var i :| 0 <= i < |items| && KeysOf(items)[i] == KeyOf(deliveries[id]);
      assert items[i] in items && items[i].id == id;
    }
  }

  lemma ListedItem(items: seq<Delivery>, d: Delivery)
    requires d in items
    ensures KeyOf(d) in KeysOf(items)
  {
    var i :| 0 <= i < |items| && items[i] == d;
    assert KeysOf(items)[i] == KeyOf(d);
  }

  /** What a page of matching keys means for the rows. */
  lemma PageIsAListing(deliveries: map<Uuid, Delivery>, tenantId: Uuid, filter: ListFilter, dlqOnly: bool, pos: Position,
                       items: seq<Delivery>, next: Option<Position>)
    requires Keyed(deliveries) && EffectiveStatus(filter, dlqOnly).Some?
    requires forall d :: d in items ==> d.id in deliveries && d == deliveries[d.id]
    requires IsPage(MatchingKeys(deliveries, tenantId, EffectiveStatus(filter, dlqOnly).value, filter.endpointId, filter.eventId),
                    pos, PageLimit(filter.limit), KeysOf(items), next)
    ensures IsListing(deliveries, tenantId, filter, dlqOnly, pos, items, next.Some?)
  {
    var keys := MatchingKeys(deliveries, tenantId, EffectiveStatus(filter, dlqOnly).value, filter.endpointId, filter.eventId);
    var shown := KeysOf(items);
    PageIsNewestFirst(keys, pos, PageLimit(filter.limit), shown, next);
    assert forall i :: 0 <= i < |items| ==> shown[i] == KeyOf(items[i]);
    forall d | d in items
      ensures KeyOf(d) in shown && d.tenantId == tenantId && AskedFor(d, filter, dlqOnly) && OlderThan(d, pos)
    {
      ListedItem(items, d);
      assert KeyOf(d) in keys;
    }
    forall id | id in deliveries && deliveries[id].tenantId == tenantId && AskedFor(deliveries[id], filter, dlqOnly)
                && OlderThan(deliveries[id], pos) && deliveries[id] !in items
      ensures next.Some? && |items| == PageLimit(filter.limit) && forall d :: d in items ==> Newer(KeyOf(d), KeyOf(deliveries[id]))
    {
      ShownIsListed(deliveries, items, id);
      assert KeyOf(deliveries[id]) in keys;
    }
  }

  /** What List answers from the rows fetched. */
  lemma AnswerOfRows(deliveries: map<Uuid, Delivery>, c: Codec, tenantId: Uuid, filter: ListFilter, dlqOnly: bool,
                     items: seq<Delivery>, rows: seq<Key>, page: DeliveryPage)
    requires Keyed(deliveries) && EffectiveStatus(filter, dlqOnly).Some? && ReadCursor(c, filter.cursor).Ok?
    requires Fetched(MatchingKeys(deliveries, tenantId, EffectiveStatus(filter, dlqOnly).value, filter.endpointId, filter.eventId),
                     ReadCursor(c, filter.cursor).value, PageLimit(filter.limit), rows)
    requires KeysOf(items) == rows && forall d :: d in items ==> d.id in deliveries && d == deliveries[d.id]
    requires var limit := PageLimit(filter.limit);
             page == if |items| > limit then DeliveryPage(items[..limit], CursorOf(c, KeyOf(items[limit - 1]))) else DeliveryPage(items, "")
    ensures forall d :: d in page.items ==> d.id in deliveries && d == deliveries[d.id]
    ensures IsAnswer(c, MatchingKeys(deliveries, tenantId, EffectiveStatus(filter, dlqOnly).value, filter.endpointId, filter.eventId),
                     filter.limit, filter.cursor, KeysOf(page.items), page.nextCursor)
    ensures IsListing(deliveries, tenantId, filter, dlqOnly, ReadCursor(c, filter.cursor).value, page.items,
                      page.items != [] && page.nextCursor == CursorOf(c, KeyOf(page.items[|page.items| - 1])))
  {
    var keys := MatchingKeys(deliveries, tenantId, EffectiveStatus(filter, dlqOnly).value, filter.endpointId, filter.eventId);
    var pos, limit := ReadCursor(c, filter.cursor).value, PageLimit(filter.limit);
    PageOfRows(keys, pos, limit, items, rows, page.items);
    PageIsAListing(deliveries, tenantId, filter, dlqOnly, pos, page.items, NextPosition(rows, limit));
    assert IsCursorFor(c, KeysOf(page.items), NextPosition(rows, limit), page.nextCursor);
  }

  class Repository {
    var deliveries: map<Uuid, Delivery>
    var attempts: map<AttemptKey, Attempt>

    constructor ()
      ensures Rows() == Tables(map[], map[])
    {
      deliveries, attempts := map[], map[];
    }

    function Rows(): Tables
      reads this
    {
      Tables(deliveries, attempts)
    }

    /** One transaction for all endpoints of an event: a row is inserted unless the endpoint has an original already. */
    method CreateDeliveries(event: EventAccepted, endpoints: seq<EndpointSnapshotWithId>, ids: seq<Uuid>, now: Time)
      requires |ids| == |endpoints| && FreshIds(deliveries, ids)
      modifies this`deliveries
      ensures deliveries == FanOut(old(deliveries), event, endpoints, ids, now)
    {
      var tx := deliveries;
      for i := 0 to |endpoints|
        invariant tx == FanOut(deliveries, event, endpoints[..i], ids[..i], now)
      {
        assert endpoints[..i + 1][..i] == endpoints[..i] && ids[..i + 1][..i] == ids[..i];
        if !HasOriginal(tx, event.eventId, endpoints[i].endpointId) {
          tx := tx[ids[i] := NewDelivery(ids[i], event, endpoints[i], now)];
        }
      }
      assert endpoints[..|endpoints|] == endpoints && ids[..|ids|] == ids;
      deliveries := tx;
    }

    /** `rows` is what the query answered, in its order. The lease asked for is ignored. */
    method ClaimBatch(workerId: string, limit: nat, lease: Time, locked: set<Uuid>, rows: seq<Uuid>, now: Time, workerNow: Time)
      returns (claimed: seq<Delivery>)
      requires ClaimAnswer(deliveries, locked, now, limit, rows)
      modifies this`deliveries
      ensures deliveries == LeaseRows(old(deliveries), Elements(rows), workerId, workerNow, now)
      ensures forall id :: id in rows ==>
                id in old(deliveries) && DueNow(old(deliveries)[id], now) && id in deliveries
                && BecomesLeased(old(deliveries)[id], deliveries[id], workerId, workerNow, now)
      ensures forall id :: id in old(deliveries) && id !in rows ==> id in deliveries && deliveries[id] == old(deliveries)[id]
      ensures |claimed| == |rows| && forall i :: 0 <= i < |rows| ==> claimed[i] == ClaimedCopy(old(deliveries)[rows[i]], workerNow)
      // The copies: the raised count and the claim's time, and all else, status and lease included, from before.
      ensures forall i :: 0 <= i < |rows| ==>
                rows[i] in old(deliveries) && var was, copy := old(deliveries)[rows[i]], claimed[i];
                && copy.id == was.id && OrderOf(copy) == OrderOf(was) && copy.attemptCount == was.attemptCount + 1
                && copy.lastAttemptAt == Some(workerNow) && copy.status == was.status && copy.leaseOwner == was.leaseOwner
    {
      var tx := deliveries;
      var expires := workerNow + LEASE;
      claimed := [];
      for i := 0 to |rows|
        invariant tx.Keys == deliveries.Keys
        invariant forall id :: id in tx ==>
                    tx[id] == if id in rows[..i] then Leased(deliveries[id], workerId, workerNow, now) else deliveries[id]
        invariant |claimed| == i && forall k :: 0 <= k < i ==> claimed[k] == ClaimedCopy(deliveries[rows[k]], workerNow)
      {
        var d := tx[rows[i]];
        assert rows[i] !in rows[..i];
        tx := tx[rows[i] := d.(status := InProgress, leaseOwner := Some(workerId), leaseExpiresAt := Some(expires),
                               attemptCount := d.attemptCount + 1, lastAttemptAt := Some(workerNow), updatedAt := now)];
        claimed := claimed + [d.(attemptCount := d.attemptCount + 1, lastAttemptAt := Some(workerNow))];
      }
      deliveries := tx;
    }

    method Get(tenantId: Uuid, id: Uuid) returns (d: Option<Delivery>)
      ensures d == Found(Rows(), tenantId, id)
    {
      if id in deliveries && deliveries[id].tenantId == tenantId {
        return Some(deliveries[id]);
      }
      return None;
    }

    /** Insert the attempt, then move the row if it is still IN_PROGRESS; a violated constraint undoes both. */
    method RecordAttemptAndTransition(d: Delivery, res: ResultStatus, nextAttemptAt: Option<Time>, latency: Time, workerNow: Time, now: Time)
      returns (err: Option<DbError>)
      modifies this
      ensures match RecordAttempt(old(Rows()), d, res, nextAttemptAt, latency, workerNow, now)
              case Ok(db) => err == None && Rows() == db
              case Err(e) => err == Some(e) && Rows() == old(Rows())
      // The constraints, each exactly in its case.
      ensures err == Some(UniqueViolation) <==> AttemptKey(d.id, d.attemptCount) in old(attempts)
      ensures err == Some(ForeignKeyViolation) <==> AttemptKey(d.id, d.attemptCount) !in old(attempts) && d.id !in old(deliveries)
      ensures err == Some(NotNullViolation) <==>
              AttemptKey(d.id, d.attemptCount) !in old(attempts) && d.id in old(deliveries) && old(deliveries)[d.id].status == InProgress
              && res == RetryableFailure && d.attemptCount < d.snapshot.retryPolicy.maxAttempts && nextAttemptAt.None?
      // The attempt, whatever the row says.
      ensures err.None? ==>
                attempts == old(attempts)[AttemptKey(d.id, d.attemptCount) :=
                              Attempt(res, if d.lastAttemptAt.Some? then d.lastAttemptAt.value else workerNow - latency, workerNow)]
      // The row, decided by the copy, if it is still in progress.
      ensures err.None? ==> d.id in old(deliveries) && deliveries == old(deliveries)[d.id := deliveries[d.id]]
      ensures err.None? && old(deliveries)[d.id].status != InProgress ==> deliveries == old(deliveries)
      ensures err.None? && old(deliveries)[d.id].status == InProgress ==>
                var was, is_ := old(deliveries)[d.id], deliveries[d.id];
                && (res == Success ==> is_.status == Delivered) && (res == PermanentFailure ==> is_.status == Failed)
                && (res == RetryableFailure && d.attemptCount >= d.snapshot.retryPolicy.maxAttempts ==> is_.status == Dlq)
                && (res == RetryableFailure && d.attemptCount < d.snapshot.retryPolicy.maxAttempts ==>
                      is_.status == Retrying && Some(is_.nextAttemptAt) == nextAttemptAt)
                && (is_.status != Retrying ==> is_.nextAttemptAt == was.nextAttemptAt)
                && is_.completedAt == (if is_.status == Retrying then None else Some(now)) && is_.updatedAt == now
                && is_.leaseOwner.None? && is_.leaseExpiresAt.None?
    {
      var status := Delivered;
      match res {
        case RetryableFailure =>
          if d.attemptCount >= d.snapshot.retryPolicy.maxAttempts {
            status := Dlq;
          } else {
            status := Retrying;
          }
        case PermanentFailure => status := Failed;
        case Success =>
      }
      var startedAt := workerNow - latency;
      if d.lastAttemptAt.Some? {
        startedAt := d.lastAttemptAt.value;
      }
      var key := AttemptKey(d.id, d.attemptCount);
      if key in attempts {
        return Some(UniqueViolation);
      }
      if d.id !in deliveries {
        return Some(ForeignKeyViolation);
      }
      var row := deliveries[d.id];
      if row.status == InProgress {
        var next := row.nextAttemptAt;
        if status == Retrying {
          if nextAttemptAt.None? {
            return Some(NotNullViolation);
          }
          next := nextAttemptAt.value;
        }
        var completed := if status == Delivered || status == Failed || status == Dlq then Some(now) else None;
        deliveries := deliveries[d.id := row.(status := status, leaseOwner := None, leaseExpiresAt := None,
                                              completedAt := completed, nextAttemptAt := next, updatedAt := now)];
      }
      attempts := attempts[key := Attempt(res, startedAt, workerNow)];
      return None;
    }

    method CreateReplay(original: Delivery, id: Uuid, now: Time)
      requires id !in deliveries
      modifies this`deliveries
      ensures deliveries.Keys == old(deliveries).Keys + {id}
      ensures forall x :: x in old(deliveries) ==> deliveries[x] == old(deliveries)[x]
      ensures IsReplay(deliveries[id], original, now) && deliveries[id].id == id
    {
      deliveries := deliveries[id := ReplayRow(original, id, now)];
    }

    /** `index` lists the whole table newest first, as its (created_at DESC, id DESC) index does. */
    method List(c: Codec, tenantId: Uuid, filter: ListFilter, dlqOnly: bool, index: seq<Key>) returns (r: Result<DeliveryPage, ListError>)
      requires Keyed(deliveries)
      requires Descending(index) && Elements(index) == (set id | id in deliveries :: KeyOf(deliveries[id]))
      ensures r == Err(InvalidStatus) <==>
              if dlqOnly then filter.status != AnyStatus && filter.status != Only(Dlq) else filter.status == Unknown
      ensures r == Err(InvalidPosition) <==> r != Err(InvalidStatus) && ReadCursor(c, filter.cursor).Err?
      ensures r.Err? ==> r.error != NoSuchDelivery
      ensures r.Ok? ==> IsListing(deliveries, tenantId, filter, dlqOnly, ReadCursor(c, filter.cursor).value, r.value.items,
                                  r.value.items != [] && r.value.nextCursor == CursorOf(c, KeyOf(r.value.items[|r.value.items| - 1])))
      ensures r.Ok? ==>
                var keys := MatchingKeys(deliveries, tenantId, EffectiveStatus(filter, dlqOnly).value, filter.endpointId, filter.eventId);
                var shown := KeysOf(r.value.items);
                && (forall d :: d in r.value.items ==> d.id in deliveries && d == deliveries[d.id])
                && IsAnswer(c, keys, filter.limit, filter.cursor, shown, r.value.nextCursor)
    {
      var limit := filter.limit;
      if limit < 1 || limit > 100 {
        limit := 50;
      }
      var status := filter.status;
      if dlqOnly {
        if status != AnyStatus && status != Only(Dlq) {
          return Err(InvalidStatus);
        }
        status := Only(Dlq);
      } else if status == Unknown {
        return Err(InvalidStatus);
      }
      var position := ReadCursor(c, filter.cursor);
      if position.Err? {
        return Err(InvalidPosition);
      }
      var keys := MatchingKeys(deliveries, tenantId, status, filter.endpointId, filter.eventId);
      var items, rows := FetchRows(index, keys, position.value, limit);
      var page := DeliveryPage(items, "");
      if |items| > limit {
        page := DeliveryPage(items[..limit], CursorOf(c, KeyOf(items[limit - 1])));
      }
      AnswerOfRows(deliveries, c, tenantId, filter, dlqOnly, items, rows, page);
      return Ok(page);
    }

    /** The query's LIMIT and the loop over its rows. */
    method FetchRows(index: seq<Key>, keys: set<Key>, pos: Position, limit: nat) returns (items: seq<Delivery>, ghost rows: seq<Key>)
      requires Descending(index) && keys <= Elements(index)
      requires forall k :: k in keys ==> k.id in deliveries && KeyOf(deliveries[k.id]) == k && deliveries[k.id].id == k.id
      ensures Fetched(keys, pos, limit, rows) && KeysOf(items) == rows
      ensures forall d :: d in items ==> d.id in deliveries && d == deliveries[d.id]
    {
      var fetched := Query(index, keys, pos, limit);
      rows := fetched;
      items := [];
      for i := 0 to |fetched|
        invariant |items| == i
        invariant forall k :: 0 <= k < i ==>
                    fetched[k].id in deliveries && items[k] == deliveries[fetched[k].id] && KeyOf(items[k]) == fetched[k]
      {
        assert fetched[i] in Elements(fetched) && fetched[i] in keys;
        items := items + [deliveries[fetched[i].id]];
      }
      assert forall k :: 0 <= k < |items| ==> KeyOf(items[k]).id == items[k].id;
    }

    /** What the attempts query of one tenant selects: nothing for a delivery it does not own. `index` lists the attempt
        numbers of the delivery in ascending order, as the (delivery_id, attempt_number) index does. */
    function AttemptNumbers(tenantId: Uuid, deliveryId: Uuid, after: int, index: seq<int>): seq<int>
      reads this
    {
      if Owns(tenantId, deliveryId) then Above(index, after) else []
    }

    method ListAttempts(c: Codec, tenantId: Uuid, deliveryId: Uuid, requested: int, cursor: string, index: seq<int>)
      returns (r: Result<AttemptPage, ListError>)
      requires Ascending(index)
      requires forall n :: n in index <==> AttemptKey(deliveryId, n) in attempts
      ensures r == Err(InvalidPosition) <==> ReadAttemptCursor(c, cursor).Err?
      ensures r == Err(NoSuchDelivery) <==>
              ReadAttemptCursor(c, cursor).Ok? && !(deliveryId in deliveries && deliveries[deliveryId].tenantId == tenantId)
      ensures r.Err? ==> r.error != InvalidStatus
      ensures r.Ok? ==> IsAttemptPage(c, deliveryId, AttemptNumbers(tenantId, deliveryId, ReadAttemptCursor(c, cursor).value, index),
                                      PageLimit(requested), r.value)
    {
      var limit := requested;
      if limit < 1 || limit > 100 {
        limit := 50;
      }
      var after := ReadAttemptCursor(c, cursor);
      if after.Err? {
        return Err(InvalidPosition);
      }
      var rest := AttemptNumbers(tenantId, deliveryId, after.value, index);
      AboveIsTheRest(index, after.value);
      assert forall k :: 0 <= k < |rest| ==> rest[k] in index;
      var items := FetchAttempts(deliveryId, rest, limit);
      var page := AttemptPage(items, "");
      if |items| > limit {
        page := AttemptPage(items[..limit], AttemptCursorOf(c, items[limit - 1].0));
      }
      if |page.items| == 0 && !Owns(tenantId, deliveryId) {
        return Err(NoSuchDelivery);
      }
      return Ok(page);
    }

    predicate Owns(tenantId: Uuid, deliveryId: Uuid)
      reads this
    {
      deliveryId in deliveries && deliveries[deliveryId].tenantId == tenantId
    }

    /** The query's LIMIT and the loop over its rows. */
    method FetchAttempts(deliveryId: Uuid, numbers: seq<int>, limit: nat) returns (items: seq<(int, Attempt)>)
      requires forall k :: 0 <= k < |numbers| ==> AttemptKey(deliveryId, numbers[k]) in attempts
      ensures |items| == Min(limit + 1, |numbers|)
      ensures forall k :: 0 <= k < |items| ==> IsAttempt(deliveryId, numbers[k], items[k])
    {
      items := [];
      while |items| < |numbers| && |items| < limit + 1
        invariant |items| <= |numbers| && |items| <= limit + 1
        invariant forall k :: 0 <= k < |items| ==> IsAttempt(deliveryId, numbers[k], items[k])
      {
        var n := numbers[|items|];
        items := items + [(n, attempts[AttemptKey(deliveryId, n)])];
      }
    }

    ghost predicate IsAttempt(deliveryId: Uuid, n: int, item: (int, Attempt))
      reads this
    {
      AttemptKey(deliveryId, n) in attempts && item == (n, attempts[AttemptKey(deliveryId, n)])
    }

    /** The page shows the first `limit` of these attempts in order, with a cursor exactly when there are more. */
    ghost predicate IsAttemptPage(c: Codec, deliveryId: Uuid, numbers: seq<int>, limit: nat, page: AttemptPage)
      requires limit > 0
      reads this
    {
      && |page.items| == Min(limit, |numbers|)
      && (forall k :: 0 <= k < |page.items| ==> IsAttempt(deliveryId, numbers[k], page.items[k]))
      && page.nextCursor == if |numbers| > limit then AttemptCursorOf(c, numbers[limit - 1]) else ""
    }
  }

  datatype ServiceError = InvalidEvent | DecryptFailed | NotFound | NotReplayable | Rejected(error: DbError)

  class Service {
    const repo: Repository

    constructor (repo: Repository)
      ensures this.repo == repo
    {
      this.repo := repo;
    }

    /** `endpoints` is what the projection answered for the event's tenant and type. */
    method HandleEventAccepted(e: EventAccepted, endpoints: seq<EndpointSnapshotWithId>, ids: seq<Uuid>, now: Time) returns (err: Option<ServiceError>)
      requires |ids| == |endpoints| && FreshIds(repo.deliveries, ids)
      modifies repo`deliveries
      ensures err.Some? <==> e.eventId == NIL_UUID || e.tenantId == NIL_UUID || e.eventType == "" || e.payload == ""
      ensures repo.deliveries == if err.Some? then old(repo.deliveries) else FanOut(old(repo.deliveries), e, endpoints, ids, now)
    {
      if e.eventId == NIL_UUID || e.tenantId == NIL_UUID || e.eventType == "" {
        return Some(InvalidEvent);
      }
      if e.payload == "" {
        return Some(InvalidEvent);
      }
      if |endpoints| == 0 {
        return None;
      }
      repo.CreateDeliveries(e, endpoints, ids, now);
      return None;
    }

    /** `decrypts` and `result` are what the cipher and the webhook client did; `retryAt` is the clock plus the backoff. */
    method Deliver(d: Delivery, decrypts: bool, result: ResultStatus, retryAt: Time, latency: Time, workerNow: Time, now: Time)
      returns (err: Option<ServiceError>)
      modifies repo
      ensures !decrypts ==> err == Some(DecryptFailed) && repo.Rows() == old(repo.Rows())
      ensures decrypts ==>
                match RecordAttempt(old(repo.Rows()), d, result, RetryTime(d, result, retryAt), latency, workerNow, now)
                case Ok(db) => err == None && repo.Rows() == db
                case Err(e) => err == Some(Rejected(e)) && repo.Rows() == old(repo.Rows())
    {
      if !decrypts {
        return Some(DecryptFailed);
      }
      var next: Option<Time> := None;
      if result == RetryableFailure && d.attemptCount < d.snapshot.retryPolicy.maxAttempts {
        next := Some(retryAt);
      }
      var failed := repo.RecordAttemptAndTransition(d, result, next, latency, workerNow, now);
      if failed.Some? {
        return Some(Rejected(failed.value));
      }
      return None;
    }

    method Replay(tenantId: Uuid, id: Uuid, newId: Uuid, now: Time) returns (r: Result<Uuid, ServiceError>)
      requires newId !in repo.deliveries
      modifies repo`deliveries
      ensures var found := id in old(repo.deliveries) && old(repo.deliveries)[id].tenantId == tenantId;
              && (r == Err(NotFound) <==> !found)
              && (r == Err(NotReplayable) <==> found && old(repo.deliveries)[id].status != Failed && old(repo.deliveries)[id].status != Dlq)
              && (r.Ok? <==> found && (old(repo.deliveries)[id].status == Failed || old(repo.deliveries)[id].status == Dlq))
              && (r.Ok? ==> r.value == newId && newId in repo.deliveries && IsReplay(repo.deliveries[newId], old(repo.deliveries)[id], now))
              && repo.deliveries == if r.Ok? then old(repo.deliveries)[newId := ReplayRow(old(repo.deliveries)[id], newId, now)]
                                    else old(repo.deliveries)
    {
      var d := repo.Get(tenantId, id);
      if d.None? {
        return Err(NotFound);
      }
      if d.value.status != Failed && d.value.status != Dlq {
        return Err(NotReplayable);
      }
      ghost var before := repo.deliveries;
      repo.CreateReplay(d.value, newId, now);
      assert repo.deliveries[newId] == ReplayRow(d.value, newId, now);
      assert repo.deliveries == before[newId := ReplayRow(d.value, newId, now)];
      return Ok(newId);
    }
  }
}
