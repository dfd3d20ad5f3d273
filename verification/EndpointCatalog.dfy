/** The endpoint service's own tables: endpoint-service/internal/endpoint/repository.go. Every change is a transaction that
    raises the endpoint's version and yields the snapshot the delivery service is sent. */
module EndpointCatalog {
  import opened Basics
  import opened DeliveryModel
  import opened KeysetPaging
  import opened EndpointProjections

  datatype Endpoint = Endpoint(
    id: Uuid, tenantId: Uuid, name: string, url: string, secretEncrypted: string, status: EndpointStatus,
    connectTimeoutMs: int, requestTimeoutMs: int, retryPolicyId: Uuid, version: int,
    createdAt: Time, updatedAt: Time, deletedAt: Option<Time>)

  datatype Policy = Policy(id: Uuid, tenantId: Uuid, terms: RetryPolicy)

  datatype CreateRequest = CreateRequest(
    name: string, url: string, connectTimeoutMs: int, requestTimeoutMs: int, eventTypes: seq<string>)

  datatype PatchRequest = PatchRequest(
    name: Option<string>, url: Option<string>, secret: Option<string>,
    connectTimeoutMs: Option<int>, requestTimeoutMs: Option<int>, retryPolicyId: Option<Uuid>, eventTypes: Option<seq<string>>)

  datatype Error = NotFound | Conflict | Invalid | PolicyMissing | DuplicateSubscription

  datatype Catalog = Catalog(endpoints: map<Uuid, Endpoint>, subscriptions: set<Subscription>)

  function TypesOf(c: Catalog, id: Uuid): set<string> {
    set s | s in c.subscriptions && s.endpointId == id :: s.eventType
  }

  /** An endpoint as it is handed out, with its event types; the order the query gives them is not kept. */
  datatype EndpointView = EndpointView(endpoint: Endpoint, eventTypes: set<string>)

  function ViewOf(c: Catalog, id: Uuid): EndpointView
    requires id in c.endpoints
  {
    EndpointView(c.endpoints[id], TypesOf(c, id))
  }

  function WithoutTypes(subscriptions: set<Subscription>, id: Uuid): set<Subscription> {
    set s | s in subscriptions && s.endpointId != id
  }

  function TypeRows(id: Uuid, types: seq<string>): set<Subscription> {
    set t | t in types :: Subscription(id, t)
  }

  /** The unguarded inserts, one for each type: they fail on the first repeat. */
  function InsertTypes(subscriptions: set<Subscription>, id: Uuid, types: seq<string>): Option<set<Subscription>> {
    if types == [] then Some(subscriptions)
    else
      var front := InsertTypes(subscriptions, id, types[..|types| - 1]);
      if front.None? || Subscription(id, types[|types| - 1]) in front.value then None
      else Some(front.value + {Subscription(id, types[|types| - 1])})
  }

  /** The partial unique index on (tenant_id, lower(name)) of endpoints not deleted. */
  predicate NameTaken(lower: string -> string, endpoints: map<Uuid, Endpoint>, tenantId: Uuid, name: string, except: Uuid) {
    exists id :: id in endpoints && id != except && endpoints[id].tenantId == tenantId
                 && endpoints[id].deletedAt.None? && lower(endpoints[id].name) == lower(name)
  }

  /** The foreign key (retry_policy_id, tenant_id). */
  predicate HasPolicy(policies: map<Uuid, Policy>, tenantId: Uuid, id: Uuid) {
    id in policies && policies[id].tenantId == tenantId
  }

  function Created(lower: string -> string, c: Catalog, policies: map<Uuid, Policy>, tenantId: Uuid, tenantActive: Option<bool>,
                   req: CreateRequest, secret: string, policyId: Uuid, id: Uuid, now: Time): Result<Catalog, Error>
  {
    if tenantActive != Some(true) then Err(Invalid)
    else if NameTaken(lower, c.endpoints, tenantId, req.name, id) then Err(Conflict)
    else if !HasPolicy(policies, tenantId, policyId) then Err(PolicyMissing)
    else
      match InsertTypes(c.subscriptions, id, req.eventTypes)
      case None => Err(DuplicateSubscription)
      case Some(subscriptions) =>
        Ok(Catalog(c.endpoints[id := Endpoint(id, tenantId, req.name, req.url, secret, Active, req.connectTimeoutMs,
                                              req.requestTimeoutMs, policyId, 1, now, now, None)], subscriptions))
  }

  function PatchedEndpoint(e: Endpoint, req: PatchRequest, secret: string, now: Time): Endpoint {
    e.(name := req.name.GetOr(e.name), url := req.url.GetOr(e.url),
       secretEncrypted := if req.secret.Some? then secret else e.secretEncrypted,
       connectTimeoutMs := req.connectTimeoutMs.GetOr(e.connectTimeoutMs),
       requestTimeoutMs := req.requestTimeoutMs.GetOr(e.requestTimeoutMs),
       retryPolicyId := req.retryPolicyId.GetOr(e.retryPolicyId), version := e.version + 1, updatedAt := now)
  }

  function Patched(lower: string -> string, c: Catalog, policies: map<Uuid, Policy>, tenantId: Uuid, id: Uuid, req: PatchRequest,
                   secret: string, now: Time): Result<Catalog, Error>
  {
    if id !in c.endpoints || c.endpoints[id].tenantId != tenantId then Err(NotFound)
    else if c.endpoints[id].status == Deleted then Err(Conflict)
    else
      var e := PatchedEndpoint(c.endpoints[id], req, secret, now);
      if !HasPolicy(policies, tenantId, e.retryPolicyId) then Err(PolicyMissing)
      else if NameTaken(lower, c.endpoints, tenantId, e.name, id) then Err(Conflict)
      else if req.eventTypes.None? then Ok(c.(endpoints := c.endpoints[id := e]))
      else
        match InsertTypes(WithoutTypes(c.subscriptions, id), id, req.eventTypes.value)
        case None => Err(DuplicateSubscription)
        case Some(subscriptions) => Ok(Catalog(c.endpoints[id := e], subscriptions))
  }

  function DeletedEndpoint(e: Endpoint, now: Time): Endpoint {
    e.(status := Deleted, version := e.version + 1, deletedAt := Some(now), updatedAt := now)
  }

  function Removed(c: Catalog, policies: map<Uuid, Policy>, tenantId: Uuid, id: Uuid, now: Time): Result<Catalog, Error> {
    if id !in c.endpoints || c.endpoints[id].tenantId != tenantId then Err(NotFound)
    else if !HasPolicy(policies, tenantId, c.endpoints[id].retryPolicyId) then Err(PolicyMissing)
    else if c.endpoints[id].status == Deleted then Ok(c)
    else Ok(Catalog(c.endpoints[id := DeletedEndpoint(c.endpoints[id], now)], WithoutTypes(c.subscriptions, id)))
  }

  /** The endpoints GetSubscriptions selects. */
  function Subscribed(c: Catalog, tenantId: Uuid, eventType: string): set<Uuid> {
    set s | s in c.subscriptions && s.eventType == eventType && s.endpointId in c.endpoints
            && c.endpoints[s.endpointId].tenantId == tenantId && c.endpoints[s.endpointId].status == Active
            && c.endpoints[s.endpointId].deletedAt.None? :: s.endpointId
  }

  /** What trimming and upper-casing the status parameter leaves; nothing means ACTIVE. */
  datatype EndpointFilter = Unspecified | OnlyStatus(status: EndpointStatus) | AllStatuses | UnknownStatus

  datatype EndpointPage = EndpointPage(items: seq<EndpointView>, nextCursor: string)

  function EndpointKey(e: Endpoint): Key {
    Key(e.createdAt, e.id)
  }

  ghost function EndpointKeys(items: seq<EndpointView>): seq<Key> {
    seq(|items|, i requires 0 <= i < |items| => EndpointKey(items[i].endpoint))
  }

  predicate WantsStatus(filter: EndpointFilter, status: EndpointStatus) {
    (filter.Unspecified? ==> status == Active) && (filter.OnlyStatus? ==> status == filter.status)
  }

  function MatchingEndpoints(endpoints: map<Uuid, Endpoint>, tenantId: Uuid, filter: EndpointFilter): set<Key> {
    set id | id in endpoints && endpoints[id].tenantId == tenantId && WantsStatus(filter, endpoints[id].status)
      :: EndpointKey(endpoints[id])
  }

  /** Each field given replaces the stored one, every other stays; the version rises by one. */
  predicate IsPatched(e: Endpoint, patched: Endpoint, req: PatchRequest, encryptedSecret: string, now: Time) {
    && patched.name == (if req.name.Some? then req.name.value else e.name)
    && patched.url == (if req.url.Some? then req.url.value else e.url)
    && patched.secretEncrypted == (if req.secret.Some? then encryptedSecret else e.secretEncrypted)
    && patched.connectTimeoutMs == (if req.connectTimeoutMs.Some? then req.connectTimeoutMs.value else e.connectTimeoutMs)
    && patched.requestTimeoutMs == (if req.requestTimeoutMs.Some? then req.requestTimeoutMs.value else e.requestTimeoutMs)
    && patched.retryPolicyId == (if req.retryPolicyId.Some? then req.retryPolicyId.value else e.retryPolicyId)
    && patched.version == e.version + 1 && patched.updatedAt == now
    && patched.id == e.id && patched.tenantId == e.tenantId && patched.status == e.status
    && patched.createdAt == e.createdAt && patched.deletedAt == e.deletedAt
  }

  /** Another endpoint of the tenant that is not deleted has this name, in some case. */
  predicate SameLiveName(lower: string -> string, endpoints: map<Uuid, Endpoint>, tenantId: Uuid, name: string, except: Uuid) {
    exists id :: id in endpoints && id != except && endpoints[id].tenantId == tenantId && endpoints[id].deletedAt == None
                 && lower(endpoints[id].name) == lower(name)
  }

  class Repository {
    var endpoints: map<Uuid, Endpoint>
    var subscriptions: set<Subscription>
    const policies: map<Uuid, Policy>
    const lower: string -> string

    constructor (policies: map<Uuid, Policy>, lower: string -> string)
      ensures Rows() == Catalog(map[], {}) && this.policies == policies && this.lower == lower
    {
      endpoints, subscriptions := map[], {};
      this.policies, this.lower := policies, lower;
    }

    function Rows(): Catalog
      reads this
    {
      Catalog(endpoints, subscriptions)
    }

    /** The insert loop shared by CreateEndpoint and Patch. */
    method InsertSubscriptions(before: set<Subscription>, id: Uuid, types: seq<string>) returns (after: Option<set<Subscription>>)
      ensures after == InsertTypes(before, id, types)
    {
      var tx := before;
      for i := 0 to |types|
        invariant InsertTypes(before, id, types[..i]) == Some(tx)
      {
        assert types[..i + 1][..i] == types[..i];
        if Subscription(id, types[i]) in tx {
          FailureStays(before, id, types, i + 1);
          return None;
        }
        tx := tx + {Subscription(id, types[i])};
      }
      assert types[..|types|] == types;
      return Some(tx);
    }

    method CreateEndpoint(tenantId: Uuid, tenantActive: Option<bool>, req: CreateRequest, secret: string, policyId: Uuid, id: Uuid, now: Time)
      returns (r: Result<EndpointView, Error>)
      requires id !in endpoints
      modifies this
      ensures match Created(lower, old(Rows()), policies, tenantId, tenantActive, req, secret, policyId, id, now)
              case Ok(c) => Rows() == c && r == Ok(ViewOf(c, id))
              case Err(e) => Rows() == old(Rows()) && r == Err(e)
      ensures r == Err(Invalid) <==> tenantActive != Some(true)
      ensures r == Err(Conflict) <==> tenantActive == Some(true) && SameLiveName(lower, old(endpoints), tenantId, req.name, id)
      ensures r == Err(PolicyMissing) <==>
              tenantActive == Some(true) && !SameLiveName(lower, old(endpoints), tenantId, req.name, id)
              && !(policyId in policies && policies[policyId].tenantId == tenantId)
      ensures r.Ok? ==>
                && id in endpoints && endpoints == old(endpoints)[id := endpoints[id]] && r.value.endpoint == endpoints[id]
                && (var e := endpoints[id];
                    && e.id == id && e.tenantId == tenantId && e.name == req.name && e.url == req.url && e.secretEncrypted == secret
                    && e.status == Active && e.connectTimeoutMs == req.connectTimeoutMs && e.requestTimeoutMs == req.requestTimeoutMs
                    && e.retryPolicyId == policyId && e.version == 1 && e.createdAt == e.updatedAt == now && e.deletedAt.None?)
                && subscriptions == old(subscriptions) + (set t | t in req.eventTypes :: Subscription(id, t))
      ensures r.Ok? ==> forall t :: t in r.value.eventTypes <==> Subscription(id, t) in subscriptions
    {
      if tenantActive.None? {
        return Err(Invalid);
      }
      if !tenantActive.value {
        return Err(Invalid);
      }
      if NameTaken(lower, endpoints, tenantId, req.name, id) {
        return Err(Conflict);
      }
      if !HasPolicy(policies, tenantId, policyId) {
        return Err(PolicyMissing);
      }
      var inserted := InsertSubscriptions(subscriptions, id, req.eventTypes);
      if inserted.None? {
        return Err(DuplicateSubscription);
      }
      InsertsSucceedWithoutRepeats(subscriptions, id, req.eventTypes);
      subscriptions := inserted.value;
      endpoints := endpoints[id := Endpoint(id, tenantId, req.name, req.url, secret, Active, req.connectTimeoutMs, req.requestTimeoutMs,
                                            policyId, 1, now, now, None)];
      return Ok(ViewOf(Rows(), id));
    }

    method Patch(tenantId: Uuid, id: Uuid, req: PatchRequest, encryptedSecret: string, now: Time)
      returns (r: Result<(EndpointView, Policy), Error>)
      modifies this
      ensures match Patched(lower, old(Rows()), policies, tenantId, id, req, encryptedSecret, now)
              case Ok(c) => Rows() == c && r == Ok((ViewOf(c, id), policies[c.endpoints[id].retryPolicyId]))
              case Err(e) => Rows() == old(Rows()) && r == Err(e)
      ensures r == Err(NotFound) <==> !(id in old(endpoints) && old(endpoints)[id].tenantId == tenantId)
      ensures r == Err(PolicyMissing) <==>
              r != Err(NotFound) && id in old(endpoints) && old(endpoints)[id].status != Deleted
              && var policy := if req.retryPolicyId.Some? then req.retryPolicyId.value else old(endpoints)[id].retryPolicyId;
                 !(policy in policies && policies[policy].tenantId == tenantId)
      ensures r == Err(Conflict) <==>
              r != Err(NotFound) && r != Err(PolicyMissing) && id in old(endpoints)
              && (old(endpoints)[id].status == Deleted
                  || SameLiveName(lower, old(endpoints), tenantId, if req.name.Some? then req.name.value else old(endpoints)[id].name, id))
      ensures r.Ok? ==>
                && id in old(endpoints) && old(endpoints)[id].status != Deleted
                && id in endpoints && endpoints == old(endpoints)[id := endpoints[id]] && r.value.0.endpoint == endpoints[id]
                && IsPatched(old(endpoints)[id], endpoints[id], req, encryptedSecret, now)
                && !SameLiveName(lower, old(endpoints), tenantId, endpoints[id].name, id)
                && endpoints[id].retryPolicyId in policies && r.value.1 == policies[endpoints[id].retryPolicyId] && r.value.1.tenantId == tenantId
      ensures r.Ok? && req.eventTypes.None? ==> subscriptions == old(subscriptions)
      ensures r.Ok? && req.eventTypes.Some? ==>
                subscriptions == (set x | x in old(subscriptions) && x.endpointId != id) + (set t | t in req.eventTypes.value :: Subscription(id, t))
      ensures r.Ok? ==> forall t :: t in r.value.0.eventTypes <==> Subscription(id, t) in subscriptions
    {
      if id !in endpoints {
        return Err(NotFound);
      }
      var e := endpoints[id];
      if e.tenantId != tenantId {
        return Err(NotFound);
      }
      if e.status == Deleted {
        return Err(Conflict);
      }
      var patched := Merge(e, req, encryptedSecret, now);
      if !HasPolicy(policies, tenantId, patched.retryPolicyId) {
        return Err(PolicyMissing);
      }
      if NameTaken(lower, endpoints, tenantId, patched.name, id) {
        return Err(Conflict);
      }
      if req.eventTypes.Some? {
        var inserted := InsertSubscriptions(WithoutTypes(subscriptions, id), id, req.eventTypes.value);
        if inserted.None? {
          return Err(DuplicateSubscription);
        }
        InsertsSucceedWithoutRepeats(WithoutTypes(subscriptions, id), id, req.eventTypes.value);
        subscriptions := inserted.value;
      }
      endpoints := endpoints[id := patched];
      return Ok((ViewOf(Rows(), id), policies[patched.retryPolicyId]));
    }

    /** The part of Patch that works on its copy: each field given replaces the stored one. */
    method Merge(e: Endpoint, req: PatchRequest, encryptedSecret: string, now: Time) returns (patched: Endpoint)
      ensures patched == PatchedEndpoint(e, req, encryptedSecret, now)
      ensures IsPatched(e, patched, req, encryptedSecret, now)
    {
      var name, url := e.name, e.url;
      var connect, request := e.connectTimeoutMs, e.requestTimeoutMs;
      var policyId := e.retryPolicyId;
      if req.name.Some? {
        name := req.name.value;
      }
      if req.url.Some? {
        url := req.url.value;
      }
      if req.connectTimeoutMs.Some? {
        connect := req.connectTimeoutMs.value;
      }
      if req.requestTimeoutMs.Some? {
        request := req.requestTimeoutMs.value;
      }
      if req.retryPolicyId.Some? {
        policyId := req.retryPolicyId.value;
      }
      var secret := e.secretEncrypted;
      if req.secret.Some? {
        secret := encryptedSecret;
      }
      var version := e.version + 1;
      patched := e.(name := name, url := url, secretEncrypted := secret, connectTimeoutMs := connect,
                    requestTimeoutMs := request, retryPolicyId := policyId, version := version, updatedAt := now);
    }

    /** Deleting again changes nothing and still succeeds. */
    method Delete(tenantId: Uuid, id: Uuid, now: Time) returns (r: Result<(EndpointView, Policy), Error>)
      modifies this
      ensures match Removed(old(Rows()), policies, tenantId, id, now)
              case Ok(c) => Rows() == c && r == Ok((ViewOf(c, id), policies[c.endpoints[id].retryPolicyId]))
              case Err(e) => Rows() == old(Rows()) && r == Err(e)
      ensures r == Err(NotFound) <==> !(id in old(endpoints) && old(endpoints)[id].tenantId == tenantId)
      ensures r == Err(PolicyMissing) <==>
              r != Err(NotFound) && id in old(endpoints)
              && var policy := old(endpoints)[id].retryPolicyId; !(policy in policies && policies[policy].tenantId == tenantId)
      ensures r.Ok? || r == Err(NotFound) || r == Err(PolicyMissing)
      ensures r.Ok? ==> id in endpoints && r.value.0.endpoint == endpoints[id] && endpoints[id].status == Deleted
      ensures r.Ok? && old(endpoints)[id].status == Deleted ==> Rows() == old(Rows())
      ensures r.Ok? && old(endpoints)[id].status != Deleted ==>
                && endpoints == old(endpoints)[id := endpoints[id]]
                && subscriptions == (set x | x in old(subscriptions) && x.endpointId != id) && r.value.0.eventTypes == {}
                && (var was, e := old(endpoints)[id], endpoints[id];
                    && e.version == was.version + 1 && e.deletedAt == Some(now) && e.updatedAt == now
                    && e.id == was.id && e.tenantId == was.tenantId && e.name == was.name && e.url == was.url
                    && e.secretEncrypted == was.secretEncrypted && e.retryPolicyId == was.retryPolicyId && e.createdAt == was.createdAt
                    && e.connectTimeoutMs == was.connectTimeoutMs && e.requestTimeoutMs == was.requestTimeoutMs)
    {
      if id !in endpoints {
        return Err(NotFound);
      }
      var e := endpoints[id];
      if e.tenantId != tenantId {
        return Err(NotFound);
      }
      if e.status == Deleted {
        if !HasPolicy(policies, tenantId, e.retryPolicyId) {
          return Err(PolicyMissing);
        }
        return Ok((ViewOf(Rows(), id), policies[e.retryPolicyId]));
      }
      if !HasPolicy(policies, tenantId, e.retryPolicyId) {
        return Err(PolicyMissing);
      }
      e := e.(version := e.version + 1, status := Deleted, deletedAt := Some(now), updatedAt := now);
      endpoints := endpoints[id := e];
      subscriptions := WithoutTypes(subscriptions, id);
      assert TypesOf(Rows(), id) == {};
      return Ok((EndpointView(e, {}), policies[e.retryPolicyId]));
    }

    /** `scan` is the order in which the query, sorted by endpoint id, visits the subscriptions. */
    method GetSubscriptions(tenantId: Uuid, eventType: string, scan: seq<Subscription>) returns (out: seq<Endpoint>)
      requires forall id :: id in endpoints ==> endpoints[id].id == id
      requires Elements(scan) == subscriptions && forall i, j :: 0 <= i < j < |scan| ==> scan[i].endpointId <= scan[j].endpointId
      requires Distinct(scan)
      ensures forall e :: e in out <==> e.id in Subscribed(Rows(), tenantId, eventType) && e == endpoints[e.id]
      ensures forall e :: e in out <==>
                e.id in endpoints && e == endpoints[e.id] && e.tenantId == tenantId && e.status == Active && e.deletedAt.None?
                && Subscription(e.id, eventType) in subscriptions
      ensures forall i, j :: 0 <= i < j < |out| ==> out[i].id < out[j].id
    {
      out := [];
      for i := 0 to |scan|
        invariant forall e :: e in out <==>
                    e.id in endpoints && e == endpoints[e.id] && Subscription(e.id, eventType) in scan[..i] && Visible(e, tenantId)
        invariant forall k, l :: 0 <= k < l < |out| ==> out[k].id < out[l].id
      {
        var s := scan[i];
        if s.eventType == eventType && s.endpointId in endpoints && Visible(endpoints[s.endpointId], tenantId) {
          forall k | 0 <= k < |out|
            ensures out[k].id < s.endpointId
          {
            assert out[k] in out;
            var j :| 0 <= j < i && scan[..i][j] == Subscription(out[k].id, eventType);
            assert scan[j] != scan[i];
          }
          out := out + [endpoints[s.endpointId]];
        }
      }
      forall e
        ensures e in out <==> e.id in Subscribed(Rows(), tenantId, eventType) && e == endpoints[e.id]
      {
        assert scan[..|scan|] == scan;
        assert Subscription(e.id, eventType) in scan <==> Subscription(e.id, eventType) in Elements(scan);
      }
    }

    predicate Visible(e: Endpoint, tenantId: Uuid) {
      e.tenantId == tenantId && e.status == Active && e.deletedAt.None?
    }

    /** `index` lists the whole table newest first. */
    method List(codec: Codec, tenantId: Uuid, requested: int, cursor: string, filter: EndpointFilter, index: seq<Key>)
      returns (r: Result<EndpointPage, Error>)
      requires forall id :: id in endpoints ==> endpoints[id].id == id
      requires Descending(index) && Elements(index) == (set id | id in endpoints :: EndpointKey(endpoints[id]))
      ensures r == Err(Invalid) <==> filter == UnknownStatus || ReadCursor(codec, cursor).Err?
      ensures r.Err? ==> r == Err(Invalid)
      ensures r.Ok? ==> IsEndpointListing(Rows(), tenantId, requested, filter, ReadCursor(codec, cursor).value, r.value.items,
                                          r.value.items != []
                                          && r.value.nextCursor == CursorOf(codec, EndpointKey(r.value.items[|r.value.items| - 1].endpoint)))
      ensures r.Ok? ==> IsAnswer(codec, MatchingEndpoints(endpoints, tenantId, filter), requested, cursor, EndpointKeys(r.value.items), r.value.nextCursor)
    {
      var limit := requested;
      if limit < 1 || limit > 100 {
        limit := 50;
      }
      if filter == UnknownStatus {
        return Err(Invalid);
      }
      var position := ReadCursor(codec, cursor);
      if position.Err? {
        return Err(Invalid);
      }
      var keys := MatchingEndpoints(endpoints, tenantId, filter);
      MatchesAreIndexed(endpoints, tenantId, filter, index);
      var items, rows := FetchRows(index, keys, position.value, limit);
      var page := EndpointPage(items, "");
      if |items| > limit {
        page := EndpointPage(items[..limit], CursorOf(codec, EndpointKey(items[limit - 1].endpoint)));
      }
      AnswerOfRows(Rows(), codec, tenantId, requested, filter, cursor, items, rows, page);
      return Ok(page);
    }

    /** The query's LIMIT and the loop over its rows. */
    method FetchRows(index: seq<Key>, keys: set<Key>, pos: Position, limit: nat) returns (items: seq<EndpointView>, ghost rows: seq<Key>)
      requires Descending(index) && keys <= Elements(index)
      requires forall k :: k in keys ==> k.id in endpoints && EndpointKey(endpoints[k.id]) == k && endpoints[k.id].id == k.id
      ensures Fetched(keys, pos, limit, rows) && EndpointKeys(items) == rows
      ensures forall v :: v in items ==> v.endpoint.id in endpoints && v == ViewOf(Rows(), v.endpoint.id)
    {
      var fetched := Query(index, keys, pos, limit);
      rows := fetched;
      items := [];
      for i := 0 to |fetched|
        invariant |items| == i
        invariant forall k :: 0 <= k < i ==>
                    fetched[k].id in endpoints && items[k] == ViewOf(Rows(), fetched[k].id) && EndpointKey(items[k].endpoint) == fetched[k]
      {
        assert fetched[i] in Elements(fetched) && fetched[i] in keys;
        items := items + [ViewOf(Rows(), fetched[i].id)];
      }
      assert forall k :: 0 <= k < |items| ==> EndpointKey(items[k].endpoint).id == items[k].endpoint.id;
    }
  }

  lemma MatchesAreIndexed(endpoints: map<Uuid, Endpoint>, tenantId: Uuid, filter: EndpointFilter, index: seq<Key>)
    requires forall id :: id in endpoints ==> endpoints[id].id == id
    requires Elements(index) == set id | id in endpoints :: EndpointKey(endpoints[id])
    ensures MatchingEndpoints(endpoints, tenantId, filter) <= Elements(index)
    ensures forall k :: k in MatchingEndpoints(endpoints, tenantId, filter) ==>
              k.id in endpoints && EndpointKey(endpoints[k.id]) == k && endpoints[k.id].id == k.id
  {
  }

  /** The event types shown with an endpoint are those it is subscribed to. */
  ghost predicate ShowsTypes(c: Catalog, v: EndpointView) {
    forall t :: t in v.eventTypes <==> Subscription(v.endpoint.id, t) in c.subscriptions
  }

  lemma ViewShowsTypes(c: Catalog, id: Uuid)
    requires id in c.endpoints && c.endpoints[id].id == id
    ensures ShowsTypes(c, ViewOf(c, id))
  {
    forall t
      ensures t in TypesOf(c, id) <==> Subscription(id, t) in c.subscriptions
    {
      if Subscription(id, t) in c.subscriptions {
        assert Subscription(id, t).eventType == t;
      }
    }
  }

  predicate OlderThan(e: Endpoint, pos: Position) {
    pos.After? ==> e.createdAt < pos.key.createdAt || (e.createdAt == pos.key.createdAt && e.id < pos.key.id)
  }

  /** Who sees what: the tenant's endpoints of the status asked for, ACTIVE unless said otherwise, older than the cursor, newest
      first, each with its event types, at most the limit of 1 to 100, which is 50 if not given. Every such endpoint that is not
      shown is older than all that are, and then the page is full and leads on. */
  ghost predicate IsEndpointListing(c: Catalog, tenantId: Uuid, requested: int, filter: EndpointFilter, pos: Position,
                                    items: seq<EndpointView>, leadsOn: bool)
  {
    var limit := if 1 <= requested <= 100 then requested else 50;
    && |items| <= limit
    && (forall v :: v in items ==>
          && v.endpoint.id in c.endpoints && v.endpoint == c.endpoints[v.endpoint.id] && ShowsTypes(c, v)
          && v.endpoint.tenantId == tenantId && (filter.Unspecified? ==> v.endpoint.status == Active)
          && (filter.OnlyStatus? ==> v.endpoint.status == filter.status) && OlderThan(v.endpoint, pos))
    && (forall i, j :: 0 <= i < j < |items| ==>
          var a, b := items[i].endpoint, items[j].endpoint; a.createdAt > b.createdAt || (a.createdAt == b.createdAt && a.id > b.id))
    && (forall id :: id in c.endpoints && c.endpoints[id].tenantId == tenantId && (filter.Unspecified? ==> c.endpoints[id].status == Active)
                     && (filter.OnlyStatus? ==> c.endpoints[id].status == filter.status) && OlderThan(c.endpoints[id], pos)
                     && (forall v :: v in items ==> v.endpoint.id != id) ==>
          |items| == limit && leadsOn
          && forall v :: v in items ==>
               v.endpoint.createdAt > c.endpoints[id].createdAt || (v.endpoint.createdAt == c.endpoints[id].createdAt && v.endpoint.id > id))
  }

  lemma EndpointNotShown(endpoints: map<Uuid, Endpoint>, items: seq<EndpointView>, id: Uuid)
    requires id in endpoints && endpoints[id].id == id
    ensures (forall v :: v in items ==> v.endpoint.id != id) ==> EndpointKey(endpoints[id]) !in EndpointKeys(items)
  {
    if EndpointKey(endpoints[id]) in EndpointKeys(items) {
      var i :| 0 <= i < |items| && EndpointKeys(items)[i] == EndpointKey(endpoints[id]);
      assert items[i] in items && items[i].endpoint.id == id;
    }
  }

  lemma EndpointShown(items: seq<EndpointView>, v: EndpointView)
    requires v in items
    ensures EndpointKey(v.endpoint) in EndpointKeys(items)
  {
    var i :| 0 <= i < |items| && items[i] == v;
    assert EndpointKeys(items)[i] == EndpointKey(v.endpoint);
  }

  /** What a page of matching keys means for the endpoints. */
  lemma PageIsAListing(c: Catalog, tenantId: Uuid, requested: int, filter: EndpointFilter, pos: Position,
                       items: seq<EndpointView>, next: Option<Position>)
    requires (forall id :: id in c.endpoints ==> c.endpoints[id].id == id) && filter != UnknownStatus
    requires forall v :: v in items ==> v.endpoint.id in c.endpoints && v == ViewOf(c, v.endpoint.id)
    requires IsPage(MatchingEndpoints(c.endpoints, tenantId, filter), pos, PageLimit(requested), EndpointKeys(items), next)
    ensures IsEndpointListing(c, tenantId, requested, filter, pos, items, next.Some?)
  {
    var keys, shown := MatchingEndpoints(c.endpoints, tenantId, filter), EndpointKeys(items);
    PageIsNewestFirst(keys, pos, PageLimit(requested), shown, next);
    assert forall i :: 0 <= i < |items| ==> shown[i] == EndpointKey(items[i].endpoint);
    forall v | v in items
      ensures EndpointKey(v.endpoint) in shown && ShowsTypes(c, v)
      ensures v.endpoint.tenantId == tenantId && WantsStatus(filter, v.endpoint.status) && OlderThan(v.endpoint, pos)
    {
      EndpointShown(items, v);
      assert EndpointKey(v.endpoint) in keys;
      ViewShowsTypes(c, v.endpoint.id);
    }
    forall id | id in c.endpoints && c.endpoints[id].tenantId == tenantId && WantsStatus(filter, c.endpoints[id].status)
                && OlderThan(c.endpoints[id], pos) && (forall v :: v in items ==> v.endpoint.id != id)
      ensures next.Some? && |items| == PageLimit(requested) && forall v :: v in items ==> Newer(EndpointKey(v.endpoint), EndpointKey(c.endpoints[id]))
    {
      EndpointNotShown(c.endpoints, items, id);
      assert EndpointKey(c.endpoints[id]) in keys;
    }
  }

  /** The page cut from the rows fetched. */
  lemma PageOfRows(keys: set<Key>, pos: Position, limit: nat, items: seq<EndpointView>, rows: seq<Key>, shown: seq<EndpointView>)
    requires limit > 0 && Fetched(keys, pos, limit, rows) && EndpointKeys(items) == rows
    requires shown == if |items| > limit then items[..limit] else items
    ensures IsPage(keys, pos, limit, EndpointKeys(shown), NextPosition(rows, limit))
    ensures |items| == |rows| && (|items| > limit ==> |shown| == limit && shown[limit - 1] == items[limit - 1])
    ensures forall v :: v in shown ==> v in items
  {
    assert |EndpointKeys(items)| == |items|;
    assert EndpointKeys(shown) == Shown(rows, limit);
  }

  /** What List answers from the rows fetched. */
  lemma AnswerOfRows(c: Catalog, codec: Codec, tenantId: Uuid, requested: int, filter: EndpointFilter, cursor: string,
                     items: seq<EndpointView>, rows: seq<Key>, page: EndpointPage)
    requires (forall id :: id in c.endpoints ==> c.endpoints[id].id == id) && filter != UnknownStatus && ReadCursor(codec, cursor).Ok?
    requires Fetched(MatchingEndpoints(c.endpoints, tenantId, filter), ReadCursor(codec, cursor).value, PageLimit(requested), rows)
    requires EndpointKeys(items) == rows && forall v :: v in items ==> v.endpoint.id in c.endpoints && v == ViewOf(c, v.endpoint.id)
    requires var limit := PageLimit(requested);
             page == if |items| > limit then EndpointPage(items[..limit], CursorOf(codec, EndpointKey(items[limit - 1].endpoint))) else EndpointPage(items, "")
    ensures IsAnswer(codec, MatchingEndpoints(c.endpoints, tenantId, filter), requested, cursor, EndpointKeys(page.items), page.nextCursor)
    ensures IsEndpointListing(c, tenantId, requested, filter, ReadCursor(codec, cursor).value, page.items,
                              page.items != [] && page.nextCursor == CursorOf(codec, EndpointKey(page.items[|page.items| - 1].endpoint)))
  {
    var pos, limit := ReadCursor(codec, cursor).value, PageLimit(requested);
    PageOfRows(MatchingEndpoints(c.endpoints, tenantId, filter), pos, limit, items, rows, page.items);
    PageIsAListing(c, tenantId, requested, filter, pos, page.items, NextPosition(rows, limit));
    assert IsCursorFor(codec, EndpointKeys(page.items), NextPosition(rows, limit), page.nextCursor);
  }

  lemma {:induction false} FailureStays(before: set<Subscription>, id: Uuid, types: seq<string>, i: nat)
    requires i <= |types| && InsertTypes(before, id, types[..i]).None?
    ensures InsertTypes(before, id, types).None?
    decreases |types|
  {
    if i == |types| {
      assert types[..i] == types;
    } else {
      var front := types[..|types| - 1];
      assert front[..i] == types[..i];
      FailureStays(before, id, front, i);
    }
  }

  /** The inserts succeed exactly when the list has no repeat and the endpoint has none of its types yet, and then add
      exactly those rows. */
  lemma {:induction false} InsertsSucceedWithoutRepeats(before: set<Subscription>, id: Uuid, types: seq<string>)
    ensures InsertTypes(before, id, types).Some? <==> Distinct(types) && forall t :: t in types ==> Subscription(id, t) !in before
    ensures InsertTypes(before, id, types).Some? ==> InsertTypes(before, id, types).value == before + TypeRows(id, types)
  {
    if types != [] {
      var front, last := types[..|types| - 1], types[|types| - 1];
      InsertsSucceedWithoutRepeats(before, id, front);
      assert types == front + [last];
      assert Distinct(types) <==> Distinct(front) && last !in front;
      assert TypeRows(id, types) == TypeRows(id, front) + {Subscription(id, last)};
    }
  }
}
