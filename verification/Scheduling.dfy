/** The delivery scheduler: delivery-service/internal/scheduler/scheduler.go. One loop claims batches and starts a worker for
    each delivery after acquiring a slot; the workers give their slots back whenever they finish. */
module Scheduling {
  import opened Basics

  /** The semaphore channel. */
  class Semaphore {
    const capacity: nat
    var taken: nat

    constructor (capacity: nat)
      ensures this.capacity == capacity && taken == 0
    {
      this.capacity := capacity;
      taken := 0;
    }

    ghost predicate Valid()
      reads this
    {
      taken <= capacity
    }
  }

  /** What New makes of the configured sizes. */
  method Configure(concurrency: int, batchSize: int, cpus: nat) returns (c: nat, b: nat)
    requires cpus > 0
    ensures c > 0 && b > 0
    ensures c == if concurrency > 0 then concurrency else 4 * cpus
    ensures b == if batchSize > 0 then batchSize else c
  {
    c := if concurrency <= 0 then cpus * 4 else concurrency;
    b := if batchSize <= 0 then c else batchSize;
  }

  /** The limit of one tick's claim; None if the tick is skipped. */
  function BatchLimit(concurrency: nat, batchSize: nat, taken: nat): Option<nat> {
    if concurrency <= taken then None else Some(Min(batchSize, concurrency - taken))
  }

  /** The slots taken after k sends, when before the i-th of them the workers tried to give back gaveBack[i] slots. */
  function Occupied(taken: nat, gaveBack: seq<nat>, k: nat): nat
    requires k <= |gaveBack|
  {
    if k == 0 then taken
    else
      var before := Occupied(taken, gaveBack, k - 1);
      before - Min(gaveBack[k - 1], before) + 1
  }

  /** One tick: `claimed` is how many deliveries the claim returned for its limit. The assertion before each send says that the
      channel has room, so the loop never blocks on it. */
  method Tick(sem: Semaphore, batchSize: nat, claimed: nat, gaveBack: seq<nat>) returns (limit: Option<nat>)
    requires sem.Valid() && |gaveBack| == claimed
    requires BatchLimit(sem.capacity, batchSize, sem.taken).Some? ==> claimed <= BatchLimit(sem.capacity, batchSize, sem.taken).value
    modifies sem
    ensures sem.Valid()
    ensures limit == BatchLimit(sem.capacity, batchSize, old(sem.taken))
    ensures limit.None? <==> old(sem.taken) == sem.capacity
    ensures limit.Some? ==> limit.value <= batchSize && limit.value <= sem.capacity - old(sem.taken)
                            && (limit.value == batchSize || limit.value == sem.capacity - old(sem.taken))
    ensures sem.taken == if limit.Some? then Occupied(old(sem.taken), gaveBack, claimed) else old(sem.taken)
  {
    var available := sem.capacity - sem.taken;
    if available <= 0 {
      return None;
    }
    var bound := batchSize;
    if bound > available {
      bound := available;
    }
    for k := 0 to claimed
      invariant sem.taken == Occupied(old(sem.taken), gaveBack, k)
      invariant sem.taken + (claimed - k) <= sem.capacity
    {
      sem.taken := sem.taken - Min(gaveBack[k], sem.taken);
      assert sem.taken < sem.capacity;
      sem.taken := sem.taken + 1;
    }
    return Some(bound);
  }

  // ----- every interleaving -----

  /** Where the loop is: between ticks, waiting for a claim of at most `limit`, or with `left` deliveries to start. */
  datatype Phase = Idle | Claiming(limit: nat) | Starting(left: nat)

  /** `working` counts the deliveries being made; a worker stops delivering before it gives its slot back. */
  datatype State = State(concurrency: nat, batchSize: nat, taken: nat, working: nat, phase: Phase)

  datatype Event = TickBegins | ClaimReturns(n: nat) | ClaimFails | Start | BatchDone | Finish | GiveBack

  predicate Possible(s: State, e: Event) {
    match e
    case TickBegins => s.phase.Idle?
    case ClaimReturns(n) => s.phase.Claiming? && n <= s.phase.limit
    case ClaimFails => s.phase.Claiming?
    case Start => s.phase.Starting? && s.phase.left > 0 && s.taken < s.concurrency
    case BatchDone => s.phase == Starting(0)
    case Finish => s.working > 0
    case GiveBack => s.working < s.taken
  }

  function After(s: State, e: Event): State
    requires Possible(s, e)
  {
    match e
    case TickBegins =>
      (match BatchLimit(s.concurrency, s.batchSize, s.taken)
       case None => s
       case Some(limit) => s.(phase := Claiming(limit)))
    case ClaimReturns(n) => s.(phase := Starting(n))
    case ClaimFails => s.(phase := Idle)
    case Start => s.(phase := Starting(s.phase.left - 1), taken := s.taken + 1, working := s.working + 1)
    case BatchDone => s.(phase := Idle)
    case Finish => s.(working := s.working - 1)
    case GiveBack => s.(taken := s.taken - 1)
  }

  ghost predicate SchedulerRun(ss: seq<State>, es: seq<Event>) {
    && |ss| == |es| + 1
    && ss[0].taken == ss[0].working == 0 && ss[0].phase == Idle
    && forall i :: 0 <= i < |es| ==> Possible(ss[i], es[i]) && ss[i + 1] == After(ss[i], es[i])
  }

  /** The slots taken and those the batch may still take fit the channel: the free count the batch was sized from can only
      have grown since. */
  predicate Fits(s: State) {
    && s.working <= s.taken <= s.concurrency
    && match s.phase
       case Idle => true
       case Claiming(limit) => s.taken + limit <= s.concurrency
       case Starting(left) => s.taken + left <= s.concurrency
  }

  lemma {:induction false} BatchesFit(ss: seq<State>, es: seq<Event>, i: nat)
    requires SchedulerRun(ss, es) && i < |ss|
    ensures Fits(ss[i]) && ss[i].concurrency == ss[0].concurrency && ss[i].batchSize == ss[0].batchSize
  {
    if i > 0 {
      BatchesFit(ss, es, i - 1);
    }
  }

  /** In any interleaving of ticks, claims and completions the deliveries being made never exceed the concurrency limit, and a
      claimed delivery can always be started at once: the send into the semaphore never blocks. */
  lemma NeverOverNeverBlocked(ss: seq<State>, es: seq<Event>, i: nat)
    requires SchedulerRun(ss, es) && i < |ss|
    ensures ss[i].working <= ss[0].concurrency
    ensures ss[i].phase.Starting? && ss[i].phase.left > 0 ==> Possible(ss[i], Start)
  {
    BatchesFit(ss, es, i);
  }
}
