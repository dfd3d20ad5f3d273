/** Tenants and API keys: auth-service/internal/repository/repository.go and auth-service/internal/service/service.go.
    Creating a key checks the tenant and inserts the key in two separate statements. */
module ApiKeys {
  import opened Basics
  import opened EventTypeValidation

  datatype TenantStatus = Active | Suspended | Deleted

  datatype Tenant = Tenant(name: string, status: TenantStatus, deletedAt: Option<Time>)

  datatype KeyStatus = KeyActive | Revoked

  /** SHA-256, taken to be free of collisions. */
  datatype Digest = Sha256(of: string)

  datatype ApiKey = ApiKey(
    tenantId: Uuid, name: string, prefix: string, secretHash: Digest, scopes: seq<string>,
    status: KeyStatus, expiresAt: Option<Time>, revokedAt: Option<Time>)

  datatype Store = Store(tenants: map<Uuid, Tenant>, keys: map<Uuid, ApiKey>)

  datatype Error = Invalid | NotFound | Conflict | InvalidScope(scope: string) | ExpiryPassed | DuplicatePrefix

  // ----- tokens -----

  const TOKEN_PREFIX := "hk_live_"

  function Token(prefix: string, random: string): string {
    TOKEN_PREFIX + prefix + "." + random
  }

  /** strings.SplitN(s, ".", 2): what stands before the first dot, if there is one. */
  function BeforeDot(s: string): Option<string> {
    if s == "" then None
    else if s[0] == '.' then Some("")
    else match BeforeDot(s[1..])
         case None => None
         case Some(rest) => Some([s[0]] + rest)
  }

  /** The key prefix Verify looks up, if the token has the right shape. */
  function PrefixOf(token: string): Option<string> {
    match BeforeDot(token)
    case None => None
    case Some(head) => if TOKEN_PREFIX <= head then Some(head[|TOKEN_PREFIX|..]) else None
  }

  lemma {:induction false} BeforeFirstDot(head: string, rest: string)
    requires '.' !in head
    ensures BeforeDot(head + "." + rest) == Some(head)
  {
    var s := head + "." + rest;
    if head != "" {
      assert s[1..] == head[1..] + "." + rest;
      BeforeFirstDot(head[1..], rest);
      assert [head[0]] + head[1..] == head;
    }
  }

  /** A token parses back to its own prefix; a UUID contains no dot. */
  lemma TokenParsesBack(prefix: string, random: string)
    requires '.' !in prefix
    ensures PrefixOf(Token(prefix, random)) == Some(prefix)
  {
    assert '.' !in TOKEN_PREFIX;
    assert Token(prefix, random) == (TOKEN_PREFIX + prefix) + "." + random;
    BeforeFirstDot(TOKEN_PREFIX + prefix, random);
    assert (TOKEN_PREFIX + prefix)[..|TOKEN_PREFIX|] == TOKEN_PREFIX;
  }

  // ----- the statements -----

  function UpdatedTenant(t: Tenant, name: Option<string>, status: Option<TenantStatus>): Tenant {
    t.(name := name.GetOr(t.name), status := status.GetOr(t.status))
  }

  function DeletedTenant(t: Tenant, now: Time): Tenant {
    if t.status == Deleted then t else t.(status := Deleted, deletedAt := Some(t.deletedAt.GetOr(now)))
  }

  function RevokedKey(k: ApiKey, now: Time): ApiKey {
    if k.status == KeyActive then k.(status := Revoked, revokedAt := Some(k.revokedAt.GetOr(now))) else k
  }

  function WithoutTenant(s: Store, id: Uuid, now: Time): Store
    requires id in s.tenants
  {
    Store(s.tenants[id := DeletedTenant(s.tenants[id], now)],
          map k | k in s.keys :: if s.keys[k].tenantId == id then RevokedKey(s.keys[k], now) else s.keys[k])
  }

  function NewKey(tenantId: Uuid, name: string, prefix: string, random: string, scopes: seq<string>, expiresAt: Option<Time>): ApiKey {
    ApiKey(tenantId, name, prefix, Sha256(Token(prefix, random)), scopes, KeyActive, expiresAt, None)
  }

  predicate PrefixTaken(keys: map<Uuid, ApiKey>, prefix: string) {
    exists k :: k in keys && keys[k].prefix == prefix
  }

  /** The join that Verify asks for, for one key row. */
  predicate Verifies(s: Store, now: Time, token: string, id: Uuid) {
    && PrefixOf(token).Some?
    && id in s.keys && s.keys[id].prefix == PrefixOf(token).value && s.keys[id].secretHash == Sha256(token)
    && s.keys[id].status == KeyActive
    && s.keys[id].tenantId in s.tenants && s.tenants[s.keys[id].tenantId].status == Active
    && (s.keys[id].expiresAt.Some? ==> s.keys[id].expiresAt.value > now)
  }

  /** The scopes a key may have; a request without scopes gets all of them. */
  function AllowedScopes(): seq<string> {
    ["events:write", "events:read", "endpoints:manage", "deliveries:read", "deliveries:replay"]
  }

  function RequestedScopes(scopes: seq<string>): seq<string> {
    if scopes == [] then AllowedScopes() else scopes
  }

  /** The names of keys and tenants, trimmed and of admissible length. */
  function CleanName(name: string, longest: nat): Option<string> {
    var t := TrimSpace(name);
    if t == "" || |t| > longest then None else Some(t)
  }

  /** The unique index on the lower-case names of tenants not deleted. */
  predicate NameTaken(lower: string -> string, tenants: map<Uuid, Tenant>, name: string, except: Uuid) {
    exists t :: t in tenants && t != except && tenants[t].deletedAt.None? && lower(tenants[t].name) == lower(name)
  }

  /** The key is revoked, since now if it was active; nothing else about it changes. */
  predicate IsRevoked(was: ApiKey, k: ApiKey, now: Time) {
    && k.status == Revoked
    && (was.status == Revoked ==> k == was)
    && (was.status == KeyActive ==> k.revokedAt == Some(was.revokedAt.GetOr(now)))
    && k.tenantId == was.tenantId && k.name == was.name && k.prefix == was.prefix && k.secretHash == was.secretHash
    && k.scopes == was.scopes && k.expiresAt == was.expiresAt
  }

  class Repository {
    var tenants: map<Uuid, Tenant>
    var keys: map<Uuid, ApiKey>
    const lower: string -> string

    constructor (lower: string -> string)
      ensures Rows() == Store(map[], map[]) && this.lower == lower
    {
      tenants, keys := map[], map[];
      this.lower := lower;
    }

    function Rows(): Store
      reads this
    {
      Store(tenants, keys)
    }

    method UpdateTenant(id: Uuid, name: Option<string>, status: Option<TenantStatus>) returns (r: Result<Tenant, Error>)
      modifies this`tenants
      ensures r == Err(Invalid) <==>
              (name.None? && status.None?) || (name.Some? && CleanName(name.value, 255).None?) || status == Some(Deleted)
      ensures r == Err(NotFound) <==> r != Err(Invalid) && (id !in old(tenants) || old(tenants)[id].status == Deleted)
      ensures r == Err(Conflict) <==>
              r != Err(Invalid) && r != Err(NotFound) && id in old(tenants) && old(tenants)[id].deletedAt.None?
              && NameTaken(lower, old(tenants), if name.Some? then CleanName(name.value, 255).GetOr("") else old(tenants)[id].name, id)
      ensures r.Ok? || r == Err(Invalid) || r == Err(NotFound) || r == Err(Conflict)
      ensures tenants == if r.Ok? then old(tenants)[id := r.value] else old(tenants)
      ensures r.Ok? ==>
                r.value == UpdatedTenant(old(tenants)[id], if name.Some? then CleanName(name.value, 255) else None, status)
      ensures r == Err(Invalid) <==>
              || (name.None? && status.None?) || status == Some(Deleted)
              || (name.Some? && (TrimSpace(name.value) == "" || |TrimSpace(name.value)| > 255))
      // What is given takes effect, the rest stays.
      ensures r.Ok? ==>
                && r.value.status == (if status.Some? then status.value else old(tenants)[id].status)
                && r.value.name == (if name.Some? then TrimSpace(name.value) else old(tenants)[id].name)
                && r.value.deletedAt == old(tenants)[id].deletedAt
    {
      if name.None? && status.None? {
        return Err(Invalid);
      }
      var newName := name;
      if name.Some? {
        newName := CleanName(name.value, 255);
        if newName.None? {
          return Err(Invalid);
        }
      }
      if status.Some? && status.value != Active && status.value != Suspended {
        return Err(Invalid);
      }
      if id !in tenants || tenants[id].status == Deleted {
        return Err(NotFound);
      }
      var t := tenants[id];
      t := t.(name := newName.GetOr(t.name), status := status.GetOr(t.status));
      if t.deletedAt.None? && NameTaken(lower, tenants, t.name, id) {
        return Err(Conflict);
      }
      tenants := tenants[id := t];
      return Ok(t);
    }

    /** Deleting again succeeds, and revokes any key that slipped in after the first time. */
    method DeleteTenant(id: Uuid, now: Time) returns (r: Result<Tenant, Error>)
      modifies this
      ensures id !in old(tenants) ==> r == Err(NotFound) && Rows() == old(Rows())
      ensures id in old(tenants) ==> Rows() == WithoutTenant(old(Rows()), id, now) && r == Ok(tenants[id])
      ensures id in old(tenants) ==>
                && id in tenants && tenants == old(tenants)[id := tenants[id]] && tenants[id].status == Deleted
                && tenants[id].name == old(tenants)[id].name
                && (old(tenants)[id].status == Deleted ==> tenants[id] == old(tenants)[id])
                && (old(tenants)[id].status != Deleted ==> tenants[id].deletedAt == Some(old(tenants)[id].deletedAt.GetOr(now)))
      // Every key of the tenant is revoked, the active ones now; no other key changes.
      ensures id in old(tenants) ==> keys.Keys == old(keys).Keys && forall k :: k in keys ==>
                if old(keys)[k].tenantId == id then IsRevoked(old(keys)[k], keys[k], now) else keys[k] == old(keys)[k]
    {
      if id !in tenants {
        return Err(NotFound);
      }
      var t := tenants[id];
      if t.status != Deleted {
        t := t.(status := Deleted, deletedAt := Some(t.deletedAt.GetOr(now)));
      }
      var rest := keys.Keys;
      var tx := keys;
      while rest != {}
        invariant rest <= keys.Keys && tx.Keys == keys.Keys
        invariant tenants == old(tenants) && keys == old(keys)
        invariant forall k :: k in tx ==>
                    tx[k] == if k !in rest && keys[k].tenantId == id then RevokedKey(keys[k], now) else keys[k]
        decreases rest
      {
        var k :| k in rest;
        if tx[k].tenantId == id && tx[k].status == KeyActive {
          tx := tx[k := tx[k].(status := Revoked, revokedAt := Some(tx[k].revokedAt.GetOr(now)))];
        }
        rest := rest - {k};
      }
      tenants, keys := tenants[id := t], tx;
      return Ok(t);
    }

    /** `active` is what the check of the tenant saw, some time before this insert. */
    method CreateKey(tenantId: Uuid, name: string, prefix: string, random: string, scopes: seq<string>, expires: Option<Time>, active: bool, id: Uuid)
      returns (r: Result<ApiKey, Error>)
      requires id !in keys
      modifies this`keys
      ensures r == Err(Invalid) <==> CleanName(name, 120).None?
      ensures r == Err(NotFound) <==> CleanName(name, 120).Some? && (!active || tenantId !in tenants)
      ensures r == Err(DuplicatePrefix) <==> CleanName(name, 120).Some? && active && tenantId in tenants && PrefixTaken(old(keys), prefix)
      ensures r.Ok? || r == Err(Invalid) || r == Err(NotFound) || r == Err(DuplicatePrefix)
      ensures keys == if r.Ok? then old(keys)[id := r.value] else old(keys)
      ensures r.Ok? ==> r.value == NewKey(tenantId, CleanName(name, 120).value, prefix, random, scopes, expires)
      ensures r == Err(Invalid) <==> TrimSpace(name) == "" || |TrimSpace(name)| > 120
      ensures r.Ok? ==>
                && active && r.value.tenantId == tenantId && r.value.name == TrimSpace(name) && r.value.prefix == prefix
                && r.value.secretHash == Sha256("hk_live_" + prefix + "." + random) && r.value.scopes == scopes
                && r.value.status == KeyActive && r.value.expiresAt == expires && r.value.revokedAt.None?
                && forall k :: k in old(keys) ==> old(keys)[k].prefix != prefix
    {
      var clean := CleanName(name, 120);
      if clean.None? {
        return Err(Invalid);
      }
      if !active || tenantId !in tenants {
        return Err(NotFound);
      }
      var hash := Sha256(Token(prefix, random));
      if PrefixTaken(keys, prefix) {
        return Err(DuplicatePrefix);
      }
      var k := ApiKey(tenantId, clean.value, prefix, hash, scopes, KeyActive, expires, None);
      keys := keys[id := k];
      return Ok(k);
    }

    method RevokeKey(tenantId: Uuid, id: Uuid, now: Time) returns (err: Option<Error>)
      modifies this`keys
      ensures var found := id in old(keys) && old(keys)[id].tenantId == tenantId && old(keys)[id].status == KeyActive;
              && err == (if found then None else Some(NotFound))
              && keys == if found then old(keys)[id := RevokedKey(old(keys)[id], now)] else old(keys)
      ensures err.None? ==> id in keys && IsRevoked(old(keys)[id], keys[id], now)
    {
      if id !in keys || keys[id].tenantId != tenantId || keys[id].status != KeyActive {
        return Some(NotFound);
      }
      keys := keys[id := keys[id].(status := Revoked, revokedAt := Some(keys[id].revokedAt.GetOr(now)))];
      return None;
    }

    /** Some key row answers the query, if any does. */
    method Verify(token: string, now: Time) returns (found: Option<Uuid>)
      ensures found.Some? ==> Verifies(Rows(), now, token, found.value)
      ensures found.None? ==> forall id :: !Verifies(Rows(), now, token, id)
    {
      if PrefixOf(token).None? {
        return None;
      }
      var rest := keys.Keys;
      while rest != {}
        invariant rest <= keys.Keys && forall id :: id in keys && id !in rest ==> !Verifies(Rows(), now, token, id)
        decreases rest
      {
        var id :| id in rest;
        if Verifies(Rows(), now, token, id) {
          return Some(id);
        }
        rest := rest - {id};
      }
      return None;
    }
  }

  /** The checks of newKey before it touches the database. */
  method CheckRequest(scopes: seq<string>, expires: Option<Time>, now: Time) returns (r: Result<seq<string>, Error>)
    ensures r.Ok? <==>
            (forall s :: s in RequestedScopes(scopes) ==> s in AllowedScopes()) && Distinct(RequestedScopes(scopes))
            && (expires.Some? ==> expires.value > now)
    ensures r.Ok? ==> r.value == RequestedScopes(scopes)
    ensures r.Ok? ==> r.value == if scopes == []
                                 then ["events:write", "events:read", "endpoints:manage", "deliveries:read", "deliveries:replay"] else scopes
    ensures r.Ok? ==> forall s :: s in scopes ==>
              s == "events:write" || s == "events:read" || s == "endpoints:manage" || s == "deliveries:read" || s == "deliveries:replay"
    ensures r.Err? && r.error.InvalidScope? ==>
              exists i :: 0 <= i < |RequestedScopes(scopes)| && RequestedScopes(scopes)[i] == r.error.scope
                          && (r.error.scope !in AllowedScopes() || r.error.scope in RequestedScopes(scopes)[..i])
  {
    var wanted := scopes;
    if |wanted| == 0 {
      wanted := AllowedScopes();
    }
    r := CheckScopes(wanted, AllowedScopes());
    if r.Err? {
      return;
    }
    if expires.Some? && !(expires.value > now) {
      return Err(ExpiryPassed);
    }
  }

  /** The loop of newKey. */
  method CheckScopes(wanted: seq<string>, allowed: seq<string>) returns (r: Result<seq<string>, Error>)
    ensures r.Ok? <==> (forall s :: s in wanted ==> s in allowed) && Distinct(wanted)
    ensures r.Ok? ==> r.value == wanted
    ensures r.Err? ==> r.error.InvalidScope?
                       && exists i :: 0 <= i < |wanted| && wanted[i] == r.error.scope
                                      && (r.error.scope !in allowed || r.error.scope in wanted[..i])
  {
    var seen: set<string> := {};
    for i := 0 to |wanted|
      invariant forall s :: s in seen <==> s in wanted[..i]
      invariant forall k :: 0 <= k < i ==> wanted[k] in allowed
      invariant forall k, l :: 0 <= k < l < i ==> wanted[k] != wanted[l]
    {
      var scope := wanted[i];
      if scope !in allowed || scope in seen {
        return Err(InvalidScope(scope));
      }
      assert forall k :: 0 <= k < i ==> wanted[k] in wanted[..i];
      seen := seen + {scope};
    }
    return Ok(wanted);
  }

  // ----- interleavings -----

  /** A key creation that has passed its check and has yet to insert. */
  datatype Pending = Pending(tenantId: Uuid, name: string, scopes: seq<string>, expiresAt: Option<Time>)

  datatype World = World(now: Time, store: Store, pending: set<Pending>, lower: string -> string)

  datatype Action =
    | Advance(to: Time)
    | AddTenant(id: Uuid, name: string)
    | Update(id: Uuid, newName: Option<string>, status: Option<TenantStatus>)
    | Delete(id: Uuid)
    | Check(request: Pending)
    | Insert(request: Pending, id: Uuid, prefix: string, random: string)
    | Revoke(tenantId: Uuid, id: Uuid)

  ghost predicate Enabled(w: World, a: Action) {
    match a
    case Advance(to) => w.now <= to
    case AddTenant(id, name) => id !in w.store.tenants && !NameTaken(w.lower, w.store.tenants, name, id)
    case Update(id, newName, status) =>
      && id in w.store.tenants && w.store.tenants[id].status != Deleted && status != Some(Deleted)
      && !NameTaken(w.lower, w.store.tenants, newName.GetOr(w.store.tenants[id].name), id)
    case Delete(id) => id in w.store.tenants
    case Check(request) =>
      && request.tenantId in w.store.tenants && w.store.tenants[request.tenantId].status == Active
      && (request.expiresAt.Some? ==> request.expiresAt.value > w.now)
    case Insert(request, id, prefix, _) =>
      request in w.pending && id !in w.store.keys && !PrefixTaken(w.store.keys, prefix) && '.' !in prefix
    case Revoke(_, id) => true
  }

  ghost function Apply(w: World, a: Action): World
    requires Enabled(w, a)
  {
    match a
    case Advance(to) => w.(now := to)
    case AddTenant(id, name) => w.(store := w.store.(tenants := w.store.tenants[id := Tenant(name, Active, None)]))
    case Update(id, name, status) =>
      w.(store := w.store.(tenants := w.store.tenants[id := UpdatedTenant(w.store.tenants[id], name, status)]))
    case Delete(id) => w.(store := WithoutTenant(w.store, id, w.now))
    case Check(request) => w.(pending := w.pending + {request})
    case Insert(r, id, prefix, random) =>
      w.(store := w.store.(keys := w.store.keys[id := NewKey(r.tenantId, r.name, prefix, random, r.scopes, r.expiresAt)]))
    case Revoke(tenantId, id) =>
      if id in w.store.keys && w.store.keys[id].tenantId == tenantId
      then w.(store := w.store.(keys := w.store.keys[id := RevokedKey(w.store.keys[id], w.now)])) else w
  }

  ghost predicate Run(ws: seq<World>, acts: seq<Action>) {
    && |ws| == |acts| + 1
    && ws[0].store == Store(map[], map[]) && ws[0].pending == {}
    && forall i :: 0 <= i < |acts| ==> Enabled(ws[i], acts[i]) && ws[i + 1] == Apply(ws[i], acts[i])
  }

  ghost predicate Inv(w: World) {
    TenantsSound(w) && KeysSound(w)
  }

  ghost predicate TenantsSound(w: World) {
    && (forall t :: t in w.store.tenants ==> (w.store.tenants[t].status == Deleted <==> w.store.tenants[t].deletedAt.Some?))
    && NamesDiffer(w.lower, w.store.tenants)
  }

  ghost predicate KeysSound(w: World) {
    && (forall k :: k in w.store.keys ==> w.store.keys[k].tenantId in w.store.tenants)
    && (forall k, l :: k in w.store.keys && l in w.store.keys && w.store.keys[k].prefix == w.store.keys[l].prefix ==> k == l)
    && (forall p :: p in w.pending ==> p.tenantId in w.store.tenants)
  }

  /** No two tenants that are not deleted have one name. */
  ghost predicate NamesDiffer(lower: string -> string, tenants: map<Uuid, Tenant>) {
    forall t, u :: t in tenants && u in tenants && t != u && tenants[t].deletedAt.None? && tenants[u].deletedAt.None? ==>
      lower(tenants[t].name) != lower(tenants[u].name)
  }

  lemma StepKeepsInv(w: World, a: Action)
    requires Inv(w) && Enabled(w, a)
    ensures Inv(Apply(w, a))
  {
    StepKeepsTenants(w, a);
    StepKeepsKeys(w, a);
  }

  lemma StepKeepsTenants(w: World, a: Action)
    requires TenantsSound(w) && Enabled(w, a)
    ensures TenantsSound(Apply(w, a))
  {
  }

  lemma StepKeepsKeys(w: World, a: Action)
    requires KeysSound(w) && Enabled(w, a)
    ensures KeysSound(Apply(w, a))
  {
  }

  /** What later worlds keep: a deleted tenant stays deleted, a revoked key revoked, and the rest of a key never changes. */
  ghost predicate Evolves(a: World, b: World) {
    && a.now <= b.now
    && (forall t :: t in a.store.tenants ==>
          t in b.store.tenants && (a.store.tenants[t].status == Deleted ==> b.store.tenants[t].status == Deleted))
    && (forall k :: k in a.store.keys ==> k in b.store.keys && KeyEvolves(a.store.keys[k], b.store.keys[k]))
  }

  ghost predicate KeyEvolves(a: ApiKey, b: ApiKey) {
    && b == a.(status := b.status, revokedAt := b.revokedAt)
    && (a.status == Revoked ==> b == a)
  }

  lemma StepEvolves(w: World, a: Action)
    requires Enabled(w, a)
    ensures Evolves(w, Apply(w, a))
  {
  }

  lemma EvolvesComposes(a: World, b: World, c: World)
    requires Evolves(a, b) && Evolves(b, c)
    ensures Evolves(a, c)
  {
  }

  lemma {:induction false} InvAlways(ws: seq<World>, acts: seq<Action>, j: nat)
    requires Run(ws, acts) && j < |ws|
    ensures Inv(ws[j])
  {
    if j > 0 {
      InvAlways(ws, acts, j - 1);
      StepKeepsInv(ws[j - 1], acts[j - 1]);
    }
  }

  lemma {:induction false} RunEvolves(ws: seq<World>, acts: seq<Action>, i: nat, j: nat)
    requires Run(ws, acts) && i <= j < |ws|
    ensures Evolves(ws[i], ws[j])
    decreases j
  {
    if i < j {
      RunEvolves(ws, acts, i, j - 1);
      StepEvolves(ws[j - 1], acts[j - 1]);
      EvolvesComposes(ws[i], ws[j - 1], ws[j]);
    }
  }

  lemma RunKeeps(ws: seq<World>, acts: seq<Action>, i: nat, j: nat)
    requires Run(ws, acts) && i <= j < |ws|
    ensures Inv(ws[j]) && Evolves(ws[i], ws[j])
  {
    InvAlways(ws, acts, j);
    RunEvolves(ws, acts, i, j);
  }

  /** An issued token verifies to its own key, tenant and scopes, and to no other key, exactly while the key and its tenant
      are active and it has not expired. */
  lemma IssuedTokenVerifies(ws: seq<World>, acts: seq<Action>, i: nat, j: nat, other: Uuid)
    requires Run(ws, acts) && i < j < |ws| && acts[i].Insert?
    ensures var key := acts[i].id; var token := Token(acts[i].prefix, acts[i].random); var r := acts[i].request;
            var s := ws[j].store;
            && key in s.keys && s.keys[key].tenantId == r.tenantId && s.keys[key].scopes == r.scopes && r.tenantId in s.tenants
            && (Verifies(s, ws[j].now, token, key) <==>
                  s.keys[key].status == KeyActive && s.tenants[r.tenantId].status == Active
                  && (r.expiresAt.Some? ==> r.expiresAt.value > ws[j].now))
            && (Verifies(s, ws[j].now, token, other) ==> other == key)
  {
    RunKeeps(ws, acts, i + 1, j);
    TokenParsesBack(acts[i].prefix, acts[i].random);
    assert KeyEvolves(ws[i + 1].store.keys[acts[i].id], ws[j].store.keys[acts[i].id]);
  }

  /** Once a key is revoked or has expired, or its tenant is deleted, no token verifies to it ever again. */
  lemma DeadKeysStayDead(ws: seq<World>, acts: seq<Action>, i: nat, j: nat, key: Uuid, token: string)
    requires Run(ws, acts) && i <= j < |ws| && key in ws[i].store.keys
    requires var s, k := ws[i].store, ws[i].store.keys[key];
             || k.status == Revoked
             || (k.expiresAt.Some? && k.expiresAt.value <= ws[i].now)
             || (k.tenantId in s.tenants && s.tenants[k.tenantId].status == Deleted)
    ensures !Verifies(ws[j].store, ws[j].now, token, key)
  {
    RunKeeps(ws, acts, i, j);
    assert KeyEvolves(ws[i].store.keys[key], ws[j].store.keys[key]);
  }

  /** Deleting a tenant ends all its keys, also one whose creation checked the tenant before the deletion and inserted the key
      after it. */
  lemma DeletedTenantsHaveNoKeys(ws: seq<World>, acts: seq<Action>, i: nat, j: nat, tenantId: Uuid, key: Uuid, token: string)
    requires Run(ws, acts) && i <= j < |ws| && tenantId in ws[i].store.tenants && ws[i].store.tenants[tenantId].status == Deleted
    requires key in ws[j].store.keys && ws[j].store.keys[key].tenantId == tenantId
    ensures !Verifies(ws[j].store, ws[j].now, token, key)
  {
    RunKeeps(ws, acts, i, j);
  }

  /** Such a key really can be inserted, and be ACTIVE: only the join with the tenant keeps it from verifying. */
  lemma StraddlingInsertLeavesAnActiveKey(w: World, delete_: Action, insert: Action)
    requires Inv(w) && insert.Insert? && Enabled(w, insert) && delete_ == Delete(insert.request.tenantId)
    ensures Enabled(w, delete_) && Enabled(Apply(w, delete_), insert)
    ensures var s := Apply(Apply(w, delete_), insert).store;
            insert.id in s.keys && s.keys[insert.id].status == KeyActive && s.tenants[insert.request.tenantId].status == Deleted
  {
    var w' := Apply(w, delete_);
    assert forall k :: k in w'.store.keys ==> w'.store.keys[k].prefix == w.store.keys[k].prefix;
  }

  /** Step `i` issued this token for key `key`. */
  ghost predicate IssuedAt(acts: seq<Action>, i: nat, key: Uuid, token: string)
    requires i < |acts|
  {
    acts[i].Insert? && acts[i].id == key && token == "hk_live_" + acts[i].prefix + "." + acts[i].random
  }

  ghost predicate Issued(acts: seq<Action>, j: nat, key: Uuid, token: string)
    requires j <= |acts|
  {
    exists i :: 0 <= i < j && IssuedAt(acts, i, key, token)
  }

  /** Every key in the table was inserted by some step, which issued its token. */
  lemma {:induction false} KeysWereIssued(ws: seq<World>, acts: seq<Action>, j: nat, key: Uuid) returns (i: nat)
    requires Run(ws, acts) && j < |ws| && key in ws[j].store.keys
    ensures i < j && acts[i].Insert? && acts[i].id == key && '.' !in acts[i].prefix
    ensures ws[j].store.keys[key].prefix == acts[i].prefix && ws[j].store.keys[key].secretHash == Sha256(Token(acts[i].prefix, acts[i].random))
  {
    assert j > 0;
    assert Enabled(ws[j - 1], acts[j - 1]) && ws[j] == Apply(ws[j - 1], acts[j - 1]);
    if key in ws[j - 1].store.keys {
      StepEvolves(ws[j - 1], acts[j - 1]);
      assert KeyEvolves(ws[j - 1].store.keys[key], ws[j].store.keys[key]);
      i := KeysWereIssued(ws, acts, j - 1, key);
    } else {
      i := j - 1;
    }
  }

  /** Exactly which tokens verify: a token verifies to a key if and only if it is the one issued for it, key and tenant are
      active, and the key has not expired. So no other text, not even one with the right prefix, ever verifies. */
  lemma VerifiesExactly(ws: seq<World>, acts: seq<Action>, j: nat, key: Uuid, token: string)
    requires Run(ws, acts) && j < |ws|
    ensures Verifies(ws[j].store, ws[j].now, token, key) <==>
            && Issued(acts, j, key, token) && key in ws[j].store.keys && ws[j].store.keys[key].status == KeyActive
            && ws[j].store.keys[key].tenantId in ws[j].store.tenants
            && ws[j].store.tenants[ws[j].store.keys[key].tenantId].status == Active
            && (ws[j].store.keys[key].expiresAt.Some? ==> ws[j].now < ws[j].store.keys[key].expiresAt.value)
  {
    if key in ws[j].store.keys {
      var i := KeysWereIssued(ws, acts, j, key);
      var k := ws[j].store.keys[key];
      TokenParsesBack(acts[i].prefix, acts[i].random);
      assert Token(acts[i].prefix, acts[i].random) == "hk_live_" + acts[i].prefix + "." + acts[i].random;
      assert IssuedAt(acts, i, key, Token(acts[i].prefix, acts[i].random));
      if Issued(acts, j, key, token) {
        var n :| 0 <= n < j && IssuedAt(acts, n, key, token);
        InsertedOnce(ws, acts, j, key, i, n);
      }
    }
  }

  /** No key is inserted twice. */
  lemma InsertedOnce(ws: seq<World>, acts: seq<Action>, j: nat, key: Uuid, i: nat, n: nat)
    requires Run(ws, acts) && i < j < |ws| && n < j && acts[i].Insert? && acts[n].Insert? && acts[i].id == acts[n].id == key
    ensures i == n
  {
    if i < n {
      InsertedStays(ws, acts, i, n);
    } else if n < i {
      InsertedStays(ws, acts, n, i);
    }
  }

  lemma InsertedStays(ws: seq<World>, acts: seq<Action>, i: nat, n: nat)
    requires Run(ws, acts) && i < n < |acts| && acts[i].Insert?
    ensures acts[i].id in ws[n].store.keys && (acts[n].Insert? ==> acts[n].id != acts[i].id)
  {
    assert Enabled(ws[n], acts[n]);
    assert acts[i].id in ws[i + 1].store.keys;
    RunKeeps(ws, acts, i + 1, n);
  }

  /** Deleting a tenant revokes every key it has at that moment, and they stay revoked. */
  lemma DeletionRevokesKeys(ws: seq<World>, acts: seq<Action>, i: nat, j: nat, key: Uuid)
    requires Run(ws, acts) && i < j < |ws| && acts[i].Delete? && key in ws[i].store.keys && ws[i].store.keys[key].tenantId == acts[i].id
    ensures key in ws[j].store.keys && ws[j].store.keys[key].status == Revoked
    ensures acts[i].id in ws[j].store.tenants && ws[j].store.tenants[acts[i].id].status == Deleted
  {
    assert Enabled(ws[i], acts[i]) && ws[i + 1] == Apply(ws[i], acts[i]);
    RunKeeps(ws, acts, i + 1, j);
    assert KeyEvolves(ws[i + 1].store.keys[key], ws[j].store.keys[key]);
  }
}
