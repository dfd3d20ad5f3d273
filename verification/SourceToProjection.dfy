/** From the endpoint service's tables to the delivery service's projection: any serial history of changes, its snapshots
    delivered in any order and any number of times. */
module SourceToProjection {
  import opened Basics
  import opened DeliveryModel
  import opened EndpointProjections
  import opened EndpointCatalog
  import opened EventTypeValidation

  datatype Change =
    | Create(tenantId: Uuid, tenantActive: Option<bool>, req: CreateRequest, secret: string, policyId: Uuid, id: Uuid, now: Time)
    | PatchIt(tenantId: Uuid, id: Uuid, patch: PatchRequest, secret: string, now: Time)
    | Remove(tenantId: Uuid, id: Uuid, now: Time)

  /** What does not change during a history: the retry policies and the collation of names. */
  datatype Setting = Setting(policies: map<Uuid, Policy>, lower: string -> string)

  /** The tables, and the snapshots sent so far in order. */
  datatype History = History(catalog: Catalog, sent: seq<EndpointChanged>)

  function RowOf(s: Setting, e: Endpoint): EndpointRow
    requires HasPolicy(s.policies, e.tenantId, e.retryPolicyId)
  {
    EndpointRow(e.tenantId, e.name, e.url, e.secretEncrypted, e.status, e.connectTimeoutMs, e.requestTimeoutMs,
                s.policies[e.retryPolicyId].terms, e.version, e.updatedAt)
  }

  /** `m` is the snapshot of endpoint `id` in these tables. */
  ghost predicate IsSnapshot(s: Setting, c: Catalog, id: Uuid, m: EndpointChanged) {
    && id in c.endpoints && HasPolicy(s.policies, c.endpoints[id].tenantId, c.endpoints[id].retryPolicyId)
    && m.endpointId == id && m.row == RowOf(s, c.endpoints[id]) && Elements(m.eventTypes) == TypesOf(c, id)
  }

  /** The id of a new endpoint is new. */
  predicate Admissible(c: Catalog, ch: Change) {
    ch.Create? ==> ch.id !in c.endpoints
  }

  function Outcome(s: Setting, c: Catalog, ch: Change): Result<Catalog, Error> {
    match ch
    case Create(tenantId, tenantActive, req, secret, policyId, id, now) =>
      Created(s.lower, c, s.policies, tenantId, tenantActive, req, secret, policyId, id, now)
    case PatchIt(tenantId, id, patch, secret, now) => Patched(s.lower, c, s.policies, tenantId, id, patch, secret, now)
    case Remove(tenantId, id, now) => Removed(c, s.policies, tenantId, id, now)
  }

  /** A change that fails, or deletes what is deleted, sends nothing and changes nothing. */
  ghost predicate Step(s: Setting, h: History, ch: Change, h': History) {
    && Admissible(h.catalog, ch)
    && match Outcome(s, h.catalog, ch)
       case Err(_) => h' == h
       case Ok(c) =>
         if c == h.catalog then h' == h
         else h'.catalog == c && |h'.sent| == |h.sent| + 1 && h'.sent[..|h.sent|] == h.sent && IsSnapshot(s, c, ch.id, h'.sent[|h.sent|])
  }

  ghost predicate IsHistory(s: Setting, hs: seq<History>, chs: seq<Change>) {
    && |hs| == |chs| + 1
    && hs[0] == History(Catalog(map[], {}), [])
    && forall i :: 0 <= i < |chs| ==> Step(s, hs[i], chs[i], hs[i + 1])
  }

  // ----- what single changes do -----

  ghost predicate EndpointSound(s: Setting, c: Catalog, id: Uuid)
    requires id in c.endpoints
  {
    var e := c.endpoints[id];
    && e.id == id && e.version >= 1 && HasPolicy(s.policies, e.tenantId, e.retryPolicyId)
    && (e.status == Deleted <==> e.deletedAt.Some?)
    && (e.status == Deleted ==> TypesOf(c, id) == {})
  }

  ghost predicate CatalogSound(s: Setting, c: Catalog) {
    && (forall id :: id in c.endpoints ==> EndpointSound(s, c, id))
    && (forall x :: x in c.subscriptions ==> x.endpointId in c.endpoints)
  }

  /** An effective change concerns one endpoint: it is new with version 1, or it was not deleted and its version rises by
      one while its tenant stays; nothing about the others changes. */
  ghost predicate ChangesOne(c: Catalog, c': Catalog, id: Uuid) {
    && id in c'.endpoints
    && (forall x :: x != id ==> (x in c'.endpoints <==> x in c.endpoints) && TypesOf(c', x) == TypesOf(c, x))
    && (forall x :: x != id && x in c.endpoints ==> c'.endpoints[x] == c.endpoints[x])
    && (if id in c.endpoints
        then c.endpoints[id].status == Active && c'.endpoints[id].version == c.endpoints[id].version + 1
             && c'.endpoints[id].tenantId == c.endpoints[id].tenantId
        else c'.endpoints[id].version == 1)
  }

  lemma TypesAfterInsert(before: set<Subscription>, after: set<Subscription>, id: Uuid, types: seq<string>, endpoints: map<Uuid, Endpoint>, endpoints': map<Uuid, Endpoint>)
    requires InsertTypes(before, id, types) == Some(after)
    ensures forall x :: x != id ==> TypesOf(Catalog(endpoints', after), x) == TypesOf(Catalog(endpoints, before), x)
    ensures forall x :: x in after ==> x in before || x.endpointId == id
  {
    InsertsSucceedWithoutRepeats(before, id, types);
  }

  lemma CreateChangesOne(s: Setting, c: Catalog, ch: Change)
    requires CatalogSound(s, c) && ch.Create? && Admissible(c, ch) && Outcome(s, c, ch).Ok?
    ensures ChangesOne(c, Outcome(s, c, ch).value, ch.id) && CatalogSound(s, Outcome(s, c, ch).value)
  {
    var c' := Outcome(s, c, ch).value;
    TypesAfterInsert(c.subscriptions, c'.subscriptions, ch.id, ch.req.eventTypes, c.endpoints, c'.endpoints);
    SoundElsewhere(s, c, c', ch.id);
  }

  lemma PatchChangesOne(s: Setting, c: Catalog, ch: Change)
    requires CatalogSound(s, c) && ch.PatchIt? && Outcome(s, c, ch).Ok?
    ensures ChangesOne(c, Outcome(s, c, ch).value, ch.id) && CatalogSound(s, Outcome(s, c, ch).value)
  {
    var c' := Outcome(s, c, ch).value;
    assert EndpointSound(s, c, ch.id);
    if ch.patch.eventTypes.Some? {
      var cleared := WithoutTypes(c.subscriptions, ch.id);
      TypesAfterInsert(cleared, c'.subscriptions, ch.id, ch.patch.eventTypes.value, c.endpoints, c'.endpoints);
      assert forall x :: x != ch.id ==> TypesOf(Catalog(c.endpoints, cleared), x) == TypesOf(c, x);
    } else {
      assert forall x :: TypesOf(c', x) == TypesOf(c, x);
    }
    SoundElsewhere(s, c, c', ch.id);
  }

  lemma RemoveChangesOne(s: Setting, c: Catalog, ch: Change)
    requires CatalogSound(s, c) && ch.Remove? && Outcome(s, c, ch).Ok? && Outcome(s, c, ch).value != c
    ensures ChangesOne(c, Outcome(s, c, ch).value, ch.id) && CatalogSound(s, Outcome(s, c, ch).value)
    ensures Outcome(s, c, ch).value.endpoints[ch.id].status == Deleted && TypesOf(Outcome(s, c, ch).value, ch.id) == {}
  {
    var c' := Outcome(s, c, ch).value;
    assert EndpointSound(s, c, ch.id);
    assert forall x :: x != ch.id ==> TypesOf(c', x) == TypesOf(c, x);
    assert TypesOf(c', ch.id) == {};
    SoundElsewhere(s, c, c', ch.id);
  }

  lemma SoundElsewhere(s: Setting, c: Catalog, c': Catalog, id: Uuid)
    requires CatalogSound(s, c) && ChangesOne(c, c', id) && EndpointSound(s, c', id)
    requires forall x :: x in c'.subscriptions ==> x in c.subscriptions || x.endpointId == id
    ensures CatalogSound(s, c')
  {
    forall x | x in c'.endpoints
      ensures EndpointSound(s, c', x)
    {
      if x != id {
        assert EndpointSound(s, c, x);
      }
    }
  }

  lemma EffectiveChange(s: Setting, c: Catalog, ch: Change)
    requires CatalogSound(s, c) && Admissible(c, ch) && Outcome(s, c, ch).Ok? && Outcome(s, c, ch).value != c
    ensures ChangesOne(c, Outcome(s, c, ch).value, ch.id) && CatalogSound(s, Outcome(s, c, ch).value)
  {
    if ch.Create? {
      CreateChangesOne(s, c, ch);
    } else if ch.PatchIt? {
      PatchChangesOne(s, c, ch);
    } else {
      RemoveChangesOne(s, c, ch);
    }
  }

  /** Event types that went through validation never make the unguarded inserts fail: neither for a new endpoint, nor for
      a patch, which clears the old ones first. */
  lemma ValidatedTypesNeverCollide(s: Setting, c: Catalog, id: Uuid, raw: seq<string>)
    requires CatalogSound(s, c)
    ensures var types := FirstOccurrences(Trimmed(raw));
            && InsertTypes(WithoutTypes(c.subscriptions, id), id, types).Some?
            && (id !in c.endpoints ==> InsertTypes(c.subscriptions, id, types).Some?)
            && forall t :: TrimmedFrom(raw, t) <==> Subscription(id, t) in InsertTypes(WithoutTypes(c.subscriptions, id), id, types).value
  {
    var types := FirstOccurrences(Trimmed(raw));
    RepeatsAreDropped(Trimmed(raw));
    InsertsSucceedWithoutRepeats(WithoutTypes(c.subscriptions, id), id, types);
    InsertsSucceedWithoutRepeats(c.subscriptions, id, types);
    TrimmedHas(raw);
  }

  /** `t` is one of the types given, once trimmed. */
  ghost predicate TrimmedFrom(raw: seq<string>, t: string) {
    exists r :: r in raw && TrimSpace(r) == t
  }

  lemma {:induction false} TrimmedHas(raw: seq<string>)
    ensures forall t :: t in Trimmed(raw) <==> TrimmedFrom(raw, t)
  {
    if raw != [] {
      var front, last := raw[..|raw| - 1], raw[|raw| - 1];
      TrimmedHas(front);
      assert raw == front + [last];
      forall t
        ensures t in Trimmed(raw) <==> TrimmedFrom(raw, t)
      {
        if t == TrimSpace(last) {
          assert last in raw;
        } else if TrimmedFrom(front, t) {
          var r :| r in front && TrimSpace(r) == t;
          assert r in raw;
        }
      }
    }
  }

  // ----- what histories keep -----

  ghost predicate SentInOrder(sent: seq<EndpointChanged>) {
    forall i, j :: 0 <= i < j < |sent| && sent[i].endpointId == sent[j].endpointId ==>
      sent[i].row.version < sent[j].row.version && sent[i].row.tenantId == sent[j].row.tenantId
  }

  ghost predicate SentKnown(h: History) {
    forall m :: m in h.sent ==>
      && m.endpointId in h.catalog.endpoints
      && 1 <= m.row.version <= h.catalog.endpoints[m.endpointId].version
      && m.row.tenantId == h.catalog.endpoints[m.endpointId].tenantId
  }

  ghost predicate WasSent(sent: seq<EndpointChanged>, id: Uuid, version: int) {
    exists m :: m in sent && m.endpointId == id && m.row.version == version
  }

  ghost predicate CurrentSent(s: Setting, h: History, id: Uuid) {
    exists m :: m in h.sent && IsSnapshot(s, h.catalog, id, m)
  }

  /** Every version up to the current one was sent, and the current one is a snapshot of the tables as they are. */
  ghost predicate SentUpTo(s: Setting, h: History, id: Uuid)
    requires id in h.catalog.endpoints
  {
    && (forall v :: 1 <= v <= h.catalog.endpoints[id].version ==> WasSent(h.sent, id, v))
    && CurrentSent(s, h, id)
  }

  ghost predicate HistorySound(s: Setting, h: History) {
    && CatalogSound(s, h.catalog) && SentInOrder(h.sent) && SentKnown(h)
    && forall id :: id in h.catalog.endpoints ==> SentUpTo(s, h, id)
  }

  /** An effective step in these terms. */
  ghost predicate Grows(s: Setting, h: History, h': History, id: Uuid, m: EndpointChanged) {
    && ChangesOne(h.catalog, h'.catalog, id) && CatalogSound(s, h'.catalog)
    && h'.sent == h.sent + [m] && IsSnapshot(s, h'.catalog, id, m)
  }

  lemma StepGrows(s: Setting, h: History, ch: Change, h': History) returns (m: EndpointChanged)
    requires CatalogSound(s, h.catalog) && Step(s, h, ch, h') && h' != h
    ensures Grows(s, h, h', ch.id, m)
  {
    EffectiveChange(s, h.catalog, ch);
    m := h'.sent[|h.sent|];
    assert h'.sent == h.sent + [m];
  }

  lemma GrowingKeepsOrder(s: Setting, h: History, h': History, id: Uuid, m: EndpointChanged)
    requires SentInOrder(h.sent) && SentKnown(h) && Grows(s, h, h', id, m)
    ensures SentInOrder(h'.sent) && SentKnown(h')
  {
    forall i, j | 0 <= i < j < |h'.sent| && h'.sent[i].endpointId == h'.sent[j].endpointId
      ensures h'.sent[i].row.version < h'.sent[j].row.version && h'.sent[i].row.tenantId == h'.sent[j].row.tenantId
    {
      assert h.sent[i] in h.sent;
    }
  }

  lemma GrowingKeepsUpTo(s: Setting, h: History, h': History, id: Uuid, m: EndpointChanged, x: Uuid)
    requires Grows(s, h, h', id, m) && x in h'.catalog.endpoints
    requires x in h.catalog.endpoints ==> SentUpTo(s, h, x)
    ensures SentUpTo(s, h', x)
  {
    assert m in h'.sent;
    if x == id {
      assert WasSent(h'.sent, id, m.row.version);
    } else {
      var last :| last in h.sent && IsSnapshot(s, h.catalog, x, last);
      assert last in h'.sent && IsSnapshot(s, h'.catalog, x, last);
    }
    forall v | 1 <= v <= h'.catalog.endpoints[x].version
      ensures WasSent(h'.sent, x, v)
    {
      if x in h.catalog.endpoints && v <= h.catalog.endpoints[x].version {
        assert WasSent(h.sent, x, v);
        var earlier :| earlier in h.sent && earlier.endpointId == x && earlier.row.version == v;
        assert earlier in h'.sent;
      }
    }
  }

  lemma StepKeepsSound(s: Setting, h: History, ch: Change, h': History)
    requires HistorySound(s, h) && Step(s, h, ch, h')
    ensures HistorySound(s, h')
  {
    if h' != h {
      var m := StepGrows(s, h, ch, h');
      GrowingKeepsOrder(s, h, h', ch.id, m);
      forall x | x in h'.catalog.endpoints
        ensures SentUpTo(s, h', x)
      {
        GrowingKeepsUpTo(s, h, h', ch.id, m, x);
      }
    }
  }

  lemma {:induction false} SoundAlways(s: Setting, hs: seq<History>, chs: seq<Change>, i: nat)
    requires IsHistory(s, hs, chs) && i < |hs|
    ensures HistorySound(s, hs[i])
  {
    if i > 0 {
      SoundAlways(s, hs, chs, i - 1);
      StepKeepsSound(s, hs[i - 1], chs[i - 1], hs[i]);
    }
  }

  lemma {:induction false} DeletedStays(s: Setting, hs: seq<History>, chs: seq<Change>, i: nat, j: nat, id: Uuid)
    requires IsHistory(s, hs, chs) && i <= j < |hs| && id in hs[i].catalog.endpoints && hs[i].catalog.endpoints[id].status == Deleted
    ensures id in hs[j].catalog.endpoints && hs[j].catalog.endpoints[id] == hs[i].catalog.endpoints[id]
    decreases j
  {
    if i < j {
      DeletedStays(s, hs, chs, i, j - 1, id);
      SoundAlways(s, hs, chs, j - 1);
      assert Step(s, hs[j - 1], chs[j - 1], hs[j]);
      if hs[j] != hs[j - 1] {
        var m := StepGrows(s, hs[j - 1], chs[j - 1], hs[j]);
      }
    }
  }

  /** A deleted endpoint stays exactly as it is and has no subscriptions; deleting it again succeeds and patching it fails. */
  lemma DeletionIsAbsorbing(s: Setting, hs: seq<History>, chs: seq<Change>, i: nat, j: nat, id: Uuid)
    requires IsHistory(s, hs, chs) && i <= j < |hs| && id in hs[i].catalog.endpoints && hs[i].catalog.endpoints[id].status == Deleted
    ensures id in hs[j].catalog.endpoints && hs[j].catalog.endpoints[id] == hs[i].catalog.endpoints[id]
    ensures TypesOf(hs[j].catalog, id) == {}
    ensures forall now :: Removed(hs[j].catalog, s.policies, hs[i].catalog.endpoints[id].tenantId, id, now) == Ok(hs[j].catalog)
    ensures forall patch, secret, now ::
              Patched(s.lower, hs[j].catalog, s.policies, hs[i].catalog.endpoints[id].tenantId, id, patch, secret, now) == Err(Conflict)
  {
    DeletedStays(s, hs, chs, i, j, id);
    SoundAlways(s, hs, chs, j);
    assert EndpointSound(s, hs[j].catalog, id);
  }

  /** Versions count effective changes: each raises its endpoint's version by exactly one and sends exactly one snapshot. */
  lemma VersionsCountChanges(s: Setting, hs: seq<History>, chs: seq<Change>, i: nat)
    requires IsHistory(s, hs, chs) && i < |chs|
    ensures hs[i + 1] == hs[i]
            || (|hs[i + 1].sent| == |hs[i].sent| + 1 && ChangesOne(hs[i].catalog, hs[i + 1].catalog, chs[i].id)
                && hs[i + 1].sent[|hs[i].sent|].row.version == hs[i + 1].catalog.endpoints[chs[i].id].version)
  {
    SoundAlways(s, hs, chs, i);
    assert Step(s, hs[i], chs[i], hs[i + 1]);
    if hs[i + 1] != hs[i] {
      var m := StepGrows(s, hs[i], chs[i], hs[i + 1]);
    }
  }

  // ----- end to end -----

  ghost predicate DrawnFrom(delivered: seq<EndpointChanged>, sent: seq<EndpointChanged>) {
    forall m :: m in delivered ==> m in sent
  }

  lemma DrawnIsConsistent(delivered: seq<EndpointChanged>, sent: seq<EndpointChanged>)
    requires DrawnFrom(delivered, sent) && SentInOrder(sent)
    ensures Consistent(delivered)
  {
    forall a, b | a in delivered && b in delivered && a.endpointId == b.endpointId
      ensures a.row.tenantId == b.row.tenantId && (a.row.version == b.row.version ==> a == b)
    {
      var i :| 0 <= i < |sent| && sent[i] == a;
      var j :| 0 <= j < |sent| && sent[j] == b;
    }
  }

  /** `row` is endpoint `e`, field by field, with the terms of its policy. */
  ghost predicate Projects(s: Setting, row: EndpointRow, e: Endpoint) {
    && row.tenantId == e.tenantId && row.name == e.name && row.url == e.url && row.secretEncrypted == e.secretEncrypted
    && row.status == e.status && row.connectTimeoutMs == e.connectTimeoutMs && row.requestTimeoutMs == e.requestTimeoutMs
    && e.retryPolicyId in s.policies && row.retryPolicy == s.policies[e.retryPolicyId].terms
    && row.version == e.version && row.updatedAt == e.updatedAt
  }

  /** The projected row of an endpoint is the endpoint as it is now, once its current snapshot was among those delivered,
      however many of the others came, in whatever order and how often. */
  lemma ProjectedRowIsCurrent(s: Setting, hs: seq<History>, chs: seq<Change>, i: nat, delivered: seq<EndpointChanged>, id: Uuid, current: EndpointChanged)
    requires IsHistory(s, hs, chs) && i < |hs| && DrawnFrom(delivered, hs[i].sent)
    requires current in delivered && IsSnapshot(s, hs[i].catalog, id, current)
    ensures id in Processed(delivered).endpoints && Processed(delivered).endpoints[id] == RowOf(s, hs[i].catalog.endpoints[id])
    ensures Projects(s, Processed(delivered).endpoints[id], hs[i].catalog.endpoints[id])
    ensures Consistent(delivered) && IsLatest(delivered, current)
  {
    SoundAlways(s, hs, chs, i);
    DrawnIsConsistent(delivered, hs[i].sent);
    assert IsLatest(delivered, current);
    ProjectionConverges(delivered, id);
  }

  /** If besides the current snapshot of every endpoint was the last one delivered about it, then an event fans out to
      exactly the endpoints that the endpoint service itself names as its subscribers, with their current URL, secret,
      timeouts and policy. */
  lemma FanOutFollowsTheSource(s: Setting, hs: seq<History>, chs: seq<Change>, i: nat, delivered: seq<EndpointChanged>,
                               tenantId: Uuid, eventType: string, id: Uuid, snapshot: EndpointSnapshot)
    requires IsHistory(s, hs, chs) && i < |hs| && DrawnFrom(delivered, hs[i].sent)
    requires forall x :: x in hs[i].catalog.endpoints ==>
               exists m :: IsSnapshot(s, hs[i].catalog, x, m) && IsLast(delivered, m)
    ensures EndpointSnapshotWithId(id, snapshot) in ForEvent(Processed(delivered), tenantId, eventType)
            <==> Subscription(id, eventType) in hs[i].catalog.subscriptions && id in hs[i].catalog.endpoints
                 && Serves(s, hs[i].catalog.endpoints[id], tenantId, snapshot)
  {
    var c := hs[i].catalog;
    SoundAlways(s, hs, chs, i);
    ForEventHas(Processed(delivered), tenantId, eventType, EndpointSnapshotWithId(id, snapshot));
    if id in c.endpoints {
      var m :| IsSnapshot(s, c, id, m) && IsLast(delivered, m);
      assert m in delivered;
      ProjectedRowIsCurrent(s, hs, chs, i, delivered, id, m);
      ProjectionConverges(delivered, id);
      assert EndpointSound(s, c, id);
      TypesAgree(c, id, eventType, m);
    } else {
      DrawnIsConsistent(delivered, hs[i].sent);
      ProjectionConverges(delivered, id);
      assert forall m :: m in delivered ==> m.endpointId != id;
    }
  }

  /** The endpoint is an active one of this tenant, and the snapshot has its URL, secret, timeouts and policy. */
  ghost predicate Serves(s: Setting, e: Endpoint, tenantId: Uuid, snapshot: EndpointSnapshot) {
    && e.tenantId == tenantId && e.status == Active && e.deletedAt.None?
    && snapshot.url == e.url && snapshot.secretEncrypted == e.secretEncrypted
    && snapshot.connectTimeoutMs == e.connectTimeoutMs && snapshot.requestTimeoutMs == e.requestTimeoutMs
    && e.retryPolicyId in s.policies && snapshot.retryPolicy == s.policies[e.retryPolicyId].terms && snapshot.eventType == ""
  }

  lemma TypesAgree(c: Catalog, id: Uuid, eventType: string, m: EndpointChanged)
    requires Elements(m.eventTypes) == TypesOf(c, id)
    ensures eventType in m.eventTypes <==> Subscription(id, eventType) in c.subscriptions
  {
    assert eventType in m.eventTypes <==> eventType in Elements(m.eventTypes);
    if Subscription(id, eventType) in c.subscriptions {
      assert Subscription(id, eventType).eventType in TypesOf(c, id);
    }
  }
}
