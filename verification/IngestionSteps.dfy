/** The calls of the event service's repository are the moves of the world in `EventIngestion`: a call whose lookup finds its
    key is a lookup; one whose lookup found nothing, some time ago, is an insert; a publisher's tick is a publication. */
module IngestionSteps {
  import opened Basics
  import opened EventIngestion

  method CreateFinds(repo: Repository, tx: nat, tenantId: Uuid, req: PublishRequest, newId: Uuid, rowId: Uuid, now: Time, ghost w: Intake)
    returns (r: Result<Event, CreateError>, ghost w': Intake)
    requires IntakeInv(w) && repo.Rows() == w.store && tx !in w.pending && ValidRequest(req) && KeyOf(tenantId, req) in repo.keys
    modifies repo
    ensures Possible(w, Lookup(tx, tenantId, req)) && w' == Made(w, Lookup(tx, tenantId, req)) && repo.Rows() == w'.store
    ensures r.Ok? && w'.replies == w.replies + [Reply(KeyOf(tenantId, req), r.value, false)]
  {
    LookupAlwaysFindsItsEvent(w, Lookup(tx, tenantId, req));
    w' := Made(w, Lookup(tx, tenantId, req));
    r := repo.CreateEvent(req, tenantId, repo.keys, newId, rowId, now);
  }

  /** `visible` is the idempotency table as the lookup saw it when the transaction began. */
  method CreateInserts(repo: Repository, tx: nat, tenantId: Uuid, req: PublishRequest, visible: map<IdempotencyKey, Uuid>,
                       newId: Uuid, rowId: Uuid, now: Time, ghost w: Intake)
    returns (r: Result<Event, CreateError>, ghost w': Intake)
    requires IntakeInv(w) && repo.Rows() == w.store && w.now == now && ValidRequest(req)
    requires tx in w.pending && w.pending[tx] == Open(tenantId, req) && newId !in repo.events && rowId !in repo.outbox
    requires KeyOf(tenantId, req) !in visible && forall k :: k in visible ==> k in repo.keys && repo.keys[k] == visible[k]
    modifies repo
    ensures Possible(w, Insert(tx, newId, rowId)) && w' == Made(w, Insert(tx, newId, rowId)) && repo.Rows() == w'.store
    ensures r.Ok? <==> KeyOf(tenantId, req) !in w.store.keys
    ensures w'.replies == w.replies + if r.Ok? then [Reply(KeyOf(tenantId, req), r.value, true)] else []
  {
    r := repo.CreateEvent(req, tenantId, visible, newId, rowId, now);
    w' := Made(w, Insert(tx, newId, rowId));
  }

  /** Keys are never removed: what a lookup saw is still there whenever its transaction inserts. */
  lemma {:induction false} KeysStay(ws: seq<Intake>, ms: seq<Move>, i: nat, j: nat, k: IdempotencyKey)
    requires IntakeRun(ws, ms) && i <= j < |ws| && k in ws[i].store.keys
    ensures k in ws[j].store.keys && ws[j].store.keys[k] == ws[i].store.keys[k]
    decreases j
  {
    if i < j {
      KeysStay(ws, ms, i, j - 1, k);
      assert ws[j] == Made(ws[j - 1], ms[j - 1]);
    }
  }

  method PublishTick(repo: Repository, rows: seq<Uuid>, sent: seq<SendResult>, commits: bool, now: Time, ghost w: Intake)
    returns (reached: seq<Message>, ghost w': Intake)
    requires repo.Rows() == w.store && w.now == now && Possible(w, Publish(rows, sent, commits))
    modifies repo
    ensures w' == Made(w, Publish(rows, sent, commits)) && repo.Rows() == w'.store && w'.broker == w.broker + Elements(reached)
  {
    w' := Made(w, Publish(rows, sent, commits));
    reached := repo.PublishBatch(rows, sent, commits, now);
  }
}
