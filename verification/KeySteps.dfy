/** The calls of the auth service's repository are the steps of the world in `ApiKeys`. */
module KeySteps {
  import opened Basics
  import opened ApiKeys

  /** The second half of creating a key: the tenant was active when it was checked. The call is the world's insert, unless the
      prefix is taken, and then nothing changes. */
  method CreateKeyInWorld(repo: Repository, request: Pending, prefix: string, random: string, id: Uuid, ghost w: World)
    returns (r: Result<ApiKey, Error>, ghost w': World)
    requires Inv(w) && repo.Rows() == w.store && request in w.pending
    requires id !in repo.keys && '.' !in prefix && CleanName(request.name, 120) == Some(request.name)
    modifies repo
    ensures repo.Rows() == w'.store && Inv(w')
    ensures if PrefixTaken(w.store.keys, prefix) then r == Err(DuplicatePrefix) && w' == w
            else Enabled(w, Insert(request, id, prefix, random)) && w' == Apply(w, Insert(request, id, prefix, random))
                 && id in w'.store.keys && r == Ok(w'.store.keys[id])
  {
    r := repo.CreateKey(request.tenantId, request.name, prefix, random, request.scopes, request.expiresAt, true, id);
    w' := w;
    if r.Ok? {
      w' := Apply(w, Insert(request, id, prefix, random));
      StepKeepsInv(w, Insert(request, id, prefix, random));
    }
  }

  /** A creation that has yet to insert did check its tenant, which was active then. */
  lemma {:induction false} PendingWasChecked(ws: seq<World>, acts: seq<Action>, i: nat, request: Pending) returns (k: nat)
    requires Run(ws, acts) && i < |ws| && request in ws[i].pending
    ensures k < i && acts[k] == Check(request)
    ensures request.tenantId in ws[k].store.tenants && ws[k].store.tenants[request.tenantId].status == Active
    ensures request.expiresAt.Some? ==> request.expiresAt.value > ws[k].now
  {
    assert ws[i] == Apply(ws[i - 1], acts[i - 1]);
    if request in ws[i - 1].pending {
      k := PendingWasChecked(ws, acts, i - 1, request);
    } else {
      k := i - 1;
    }
  }

  method RevokeKeyInWorld(repo: Repository, tenantId: Uuid, id: Uuid, now: Time, ghost w: World) returns (err: Option<Error>, ghost w': World)
    requires Inv(w) && repo.Rows() == w.store && w.now == now
    modifies repo
    ensures Enabled(w, Revoke(tenantId, id)) && w' == Apply(w, Revoke(tenantId, id)) && repo.Rows() == w'.store
    ensures err.None? ==> id in w'.store.keys && w'.store.keys[id].status == Revoked
    ensures err.Some? ==> w' == w
  {
    err := repo.RevokeKey(tenantId, id, now);
    w' := Apply(w, Revoke(tenantId, id));
    if err.Some? && id in w.store.keys {
      assert w.store.keys[id := w.store.keys[id]] == w.store.keys;
    }
  }

  method DeleteTenantInWorld(repo: Repository, id: Uuid, now: Time, ghost w: World) returns (r: Result<Tenant, Error>, ghost w': World)
    requires Inv(w) && repo.Rows() == w.store && w.now == now
    modifies repo
    ensures if id in w.store.tenants then r.Ok? && w' == Apply(w, Delete(id)) else r == Err(NotFound) && w' == w
    ensures repo.Rows() == w'.store
  {
    r := repo.DeleteTenant(id, now);
    w' := if id in w.store.tenants then Apply(w, Delete(id)) else w;
  }

  /** An update that succeeds is the world's, with the name cleaned; one that fails changes nothing. */
  method UpdateTenantInWorld(repo: Repository, id: Uuid, name: Option<string>, status: Option<TenantStatus>, ghost w: World)
    returns (r: Result<Tenant, Error>, ghost w': World)
    requires Inv(w) && repo.Rows() == w.store && repo.lower == w.lower
    modifies repo
    ensures repo.Rows() == w'.store
    ensures r.Err? ==> w' == w
    ensures r.Ok? ==> var a := Update(id, if name.Some? then CleanName(name.value, 255) else None, status);
                      Enabled(w, a) && w' == Apply(w, a) && id in w'.store.tenants && r.value == w'.store.tenants[id]
  {
    r := repo.UpdateTenant(id, name, status);
    w' := w;
    if r.Ok? {
      w' := Apply(w, Update(id, if name.Some? then CleanName(name.value, 255) else None, status));
    }
  }
}
