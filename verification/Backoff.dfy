/** delivery-service/internal/retry/backoff.go, over the reals: the delay before the next attempt. */
module Backoff {
  import opened Basics

  datatype Policy = Policy(backoffType: string, initialDelayMs: int, maxDelayMs: int, jitterPercent: int)

  /** The checks of the retry_policies table on its numbers. */
  predicate WithinLimits(p: Policy) {
    && 100 <= p.initialDelayMs <= 86_400_000
    && p.initialDelayMs <= p.maxDelayMs <= 604_800_000
    && 0 <= p.jitterPercent <= 100
  }

  /** All its checks; "linear" is known to the code but not to the table. */
  predicate Checked(p: Policy) {
    WithinLimits(p) && p.backoffType in {"fixed", "exponential"}
  }

  /** The delay before cap and jitter; any type other than "linear" grows exponentially. */
  function Grown(p: Policy, attempt: int): int {
    var k := Max(attempt, 1);
    if p.backoffType == "linear" then p.initialDelayMs * k else p.initialDelayMs * Pow2(k - 1)
  }

  /** The delay without jitter, in milliseconds. */
  function Plain(p: Policy, attempt: int): int {
    if p.maxDelayMs > 0 then Min(Grown(p, attempt), p.maxDelayMs) else Grown(p, attempt)
  }

  /** The percentage of the delay by which jitter may change it. */
  function Share(base: real, percent: int): real {
    base * percent as real / 100.0
  }

  /** The part of the share that a draw in [0, 1) swings to, from all of it below to all of it above. */
  function Swing(draw: real, share: real): real {
    (draw * 2.0 - 1.0) * share
  }

  /** The delay with jitter, still with its fraction; `draw` is rand.Float64(). */
  function Jittered(base: real, percent: int, draw: real): real {
    if percent > 0 then base + Swing(draw, Share(base, percent)) else base
  }

  /** The clamp at zero and the conversion to a time.Duration, which drops the fraction. */
  function WholeMs(x: real): int {
    if x < 0.0 then 0 else x.Floor
  }

  function Delay(p: Policy, attempt: int, draw: real): Time {
    WholeMs(Jittered(Plain(p, attempt) as real, p.jitterPercent, draw)) * MILLISECOND
  }

  method NextDelay(p: Policy, nextAttemptNumber: int, draw: real) returns (delay: Time)
    ensures delay == Delay(p, nextAttemptNumber, draw)
  {
    var base := Capped(p, nextAttemptNumber);
    if p.jitterPercent > 0 {
      var jitter := base * p.jitterPercent as real / 100.0;
      assert jitter == Share(base, p.jitterPercent);
      base := base + (draw * 2.0 - 1.0) * jitter;
    }
    assert base == Jittered(Plain(p, nextAttemptNumber) as real, p.jitterPercent, draw);
    if base < 0.0 {
      base := 0.0;
    }
    delay := base.Floor * MILLISECOND;
  }

  /** The first half of NextDelay: growth and cap. */
  method Capped(p: Policy, nextAttemptNumber: int) returns (base: real)
    ensures base == Plain(p, nextAttemptNumber) as real
  {
    var k := nextAttemptNumber;
    if k < 1 {
      k := 1;
    }
    match p.backoffType {
      case "linear" => base := p.initialDelayMs as real * k as real;
      case _ => base := p.initialDelayMs as real * Pow2(k - 1) as real;
    }
    ProductIsWhole(p.initialDelayMs, k);
    ProductIsWhole(p.initialDelayMs, Pow2(k - 1));
    if p.maxDelayMs > 0 && base > p.maxDelayMs as real {
      base := p.maxDelayMs as real;
    }
  }

  lemma ProductIsWhole(a: int, b: int)
    ensures a as real * b as real == (a * b) as real
  {
  }

  // ----- bounds -----

  lemma ScaleGrows(a: int, x: int, y: int)
    requires a >= 0 && x <= y
    ensures a * x <= a * y
  {
    assert a * (y - x) >= 0;
  }

  /** Without jitter the delay never falls from one attempt to the next, starts at the initial delay and stays within the
      cap. */
  lemma PlainGrows(p: Policy, k: int, l: int)
    requires p.initialDelayMs >= 0 && k <= l
    ensures Plain(p, k) <= Plain(p, l)
    ensures p.maxDelayMs > 0 ==> Plain(p, l) <= p.maxDelayMs
    ensures p.maxDelayMs > 0 ==> Min(p.initialDelayMs, p.maxDelayMs) <= Plain(p, l)
    ensures p.maxDelayMs > 0 ==> Plain(p, 1) == Min(p.initialDelayMs, p.maxDelayMs)
  {
    var m, n := Max(k, 1), Max(l, 1);
    Pow2Grows(m - 1, n - 1);
    Pow2Grows(0, n - 1);
    ScaleGrows(p.initialDelayMs, m, n);
    ScaleGrows(p.initialDelayMs, 1, n);
    ScaleGrows(p.initialDelayMs, Pow2(m - 1), Pow2(n - 1));
    ScaleGrows(p.initialDelayMs, 1, Pow2(n - 1));
  }

  lemma NonNegativeProduct(a: real, b: real)
    requires a >= 0.0 && b >= 0.0
    ensures a * b >= 0.0
  {
  }

  lemma DoubleProduct(a: int, b: int)
    ensures a * (2 * b) == 2 * (a * b)
  {
  }

  /** What the delay without jitter is, from one attempt to the next: it starts at the initial delay and then doubles, or for
      "linear" grows by the initial delay, and never passes the cap, if there is one. */
  lemma PlainRecurs(p: Policy, k: int)
    requires p.initialDelayMs >= 0
    ensures k <= 1 ==> Plain(p, k) == if p.maxDelayMs > 0 && p.initialDelayMs > p.maxDelayMs then p.maxDelayMs else p.initialDelayMs
    ensures k >= 1 ==>
              var more := if p.backoffType == "linear" then Plain(p, k) + p.initialDelayMs else 2 * Plain(p, k);
              Plain(p, k + 1) == if p.maxDelayMs > 0 && more > p.maxDelayMs then p.maxDelayMs else more
  {
    GrownRecurs(p, k);
  }

  lemma GrownRecurs(p: Policy, k: int)
    requires p.initialDelayMs >= 0
    ensures k <= 1 ==> Grown(p, k) == p.initialDelayMs
    ensures k >= 1 ==> Grown(p, k) >= 0
    ensures k >= 1 ==> Grown(p, k + 1) == if p.backoffType == "linear" then Grown(p, k) + p.initialDelayMs else 2 * Grown(p, k)
  {
    if k >= 1 {
      DoubleProduct(p.initialDelayMs, Pow2(k - 1));
      Pow2Grows(0, k - 1);
      ScaleGrows(p.initialDelayMs, 0, k);
      ScaleGrows(p.initialDelayMs, 0, Pow2(k - 1));
      assert Pow2(k) == 2 * Pow2(k - 1);
      assert p.initialDelayMs * (k + 1) == p.initialDelayMs * k + p.initialDelayMs;
    }
  }

  /** What jitter does to a delay: without it nothing; else the lowest draw takes off the whole percentage, the middle one
      nothing, a higher draw more than a lower one, and opposite draws cancel. */
  lemma JitterIsSymmetric(base: real, percent: int, draw: real, higher: real)
    requires base >= 0.0 && 0 <= percent <= 100 && draw <= higher
    ensures percent == 0 ==> Jittered(base, percent, draw) == base
    ensures Jittered(base, percent, 0.0) == base - base * (percent as real) / 100.0
    ensures Jittered(base, percent, 0.5) == base
    ensures Jittered(base, percent, draw) + Jittered(base, percent, 1.0 - draw) == 2.0 * base
    ensures Jittered(base, percent, draw) <= Jittered(base, percent, higher)
  {
    var share := Share(base, percent);
    ShareBounds(base, percent);
    NonNegativeProduct(higher - draw, share);
    assert (higher - draw) * share == higher * share - draw * share;
    assert Swing(draw, share) == 2.0 * (draw * share) - share && Swing(higher, share) == 2.0 * (higher * share) - share;
    assert (1.0 - draw) * share == share - draw * share;
    assert Swing(1.0 - draw, share) == 2.0 * ((1.0 - draw) * share) - share;
  }

  lemma ShareBounds(base: real, percent: int)
    requires base >= 0.0 && 0 <= percent <= 100
    ensures 0.0 <= Share(base, percent) <= base
  {
    var part := percent as real;
    NonNegativeProduct(base, part);
    NonNegativeProduct(base, 100.0 - part);
    assert base * (100.0 - part) == 100.0 * base - base * part;
  }

  lemma SwingBounds(draw: real, share: real)
    requires 0.0 <= draw < 1.0 && share >= 0.0
    ensures -share <= Swing(draw, share) <= share
  {
    NonNegativeProduct(draw, share);
    NonNegativeProduct(1.0 - draw, share);
    assert Swing(draw, share) == 2.0 * (draw * share) - share;
    assert (1.0 - draw) * share == share - draw * share;
  }

  lemma JitterBounds(base: real, percent: int, draw: real)
    requires base >= 0.0 && 0 <= percent <= 100 && 0.0 <= draw < 1.0
    ensures base - Share(base, percent) <= Jittered(base, percent, draw) <= base + Share(base, percent)
    ensures 0.0 <= Share(base, percent) <= base
  {
    ShareBounds(base, percent);
    SwingBounds(draw, Share(base, percent));
  }

  /** For every policy within the limits, linear or not, every attempt and draw, the delay is within jitter percent of the
      capped delay, up to the fraction of a millisecond that is dropped, is never negative, and fits a signed 64-bit count
      of nanoseconds. */
  lemma DelayIsBounded(p: Policy, attempt: int, draw: real)
    requires WithinLimits(p) && 0.0 <= draw < 1.0
    ensures var plain := Plain(p, attempt) as real; var share := Share(plain, p.jitterPercent);
            var ms := Delay(p, attempt, draw) / MILLISECOND;
            && Delay(p, attempt, draw) == ms * MILLISECOND
            && plain - share - 1.0 < ms as real <= plain + share
    ensures 0 <= Delay(p, attempt, draw) < 0x8000_0000_0000_0000
  {
    PlainGrows(p, attempt, attempt);
    var plain := Plain(p, attempt) as real;
    JitterBounds(plain, p.jitterPercent, draw);
    var ms := WholeMs(Jittered(plain, p.jitterPercent, draw));
    assert ms as real <= 2.0 * 604_800_000.0;
  }

  // ----- what a whole delivery waits -----

  /** The plain delays after attempts 1..n. */
  function PlainSum(p: Policy, n: nat): int {
    if n == 0 then 0 else PlainSum(p, n - 1) + Plain(p, n)
  }

  /** How many of the first n delays are still below the cap. */
  function BelowCap(p: Policy, n: nat): nat {
    if n == 0 then 0 else if p.initialDelayMs * Pow2(n - 1) <= p.maxDelayMs then n else BelowCap(p, n - 1)
  }

  lemma {:induction false} BelowCapIsThreshold(p: Policy, n: nat, k: int)
    requires Checked(p) && 1 <= k <= n
    ensures k <= BelowCap(p, n) <==> p.initialDelayMs * Pow2(k - 1) <= p.maxDelayMs
    ensures BelowCap(p, n) <= n
    decreases n
  {
    if p.initialDelayMs * Pow2(n - 1) <= p.maxDelayMs {
      Pow2Grows(k - 1, n - 1);
      ScaleGrows(p.initialDelayMs, Pow2(k - 1), Pow2(n - 1));
    } else if k < n {
      BelowCapIsThreshold(p, n - 1, k);
    } else {
      BelowCapIsSmall(p, n - 1);
    }
  }

  lemma {:induction false} BelowCapIsSmall(p: Policy, n: nat)
    ensures BelowCap(p, n) <= n
  {
    if n > 0 {
      BelowCapIsSmall(p, n - 1);
    }
  }

  lemma LastBelowCap(p: Policy, n: nat)
    requires Checked(p) && n > 0 && p.initialDelayMs * Pow2(n - 1) <= p.maxDelayMs
    ensures BelowCap(p, n) == n && BelowCap(p, n - 1) == n - 1
  {
    if n > 1 {
      Pow2Grows(n - 2, n - 1);
      ScaleGrows(p.initialDelayMs, Pow2(n - 2), Pow2(n - 1));
    }
  }

  /** The closed form, split at the cap: the first c delays double and sum to initial·(2^c − 1), the others are the cap. */
  lemma {:induction false} PlainSumClosedForm(p: Policy, n: nat)
    requires Checked(p)
    ensures BelowCap(p, n) <= n
    ensures PlainSum(p, n) == p.initialDelayMs * (Pow2(BelowCap(p, n)) - 1) + (n - BelowCap(p, n)) * p.maxDelayMs
  {
    if n == 0 {
      assert p.initialDelayMs * (Pow2(0) - 1) == 0;
    } else {
      PlainSumClosedForm(p, n - 1);
      PlainSumStep(p, n);
    }
  }

  lemma PlainSumStep(p: Policy, n: nat)
    requires Checked(p) && n > 0 && BelowCap(p, n - 1) <= n - 1
    ensures BelowCap(p, n) <= n
    ensures p.initialDelayMs * (Pow2(BelowCap(p, n)) - 1) + (n - BelowCap(p, n)) * p.maxDelayMs
            == p.initialDelayMs * (Pow2(BelowCap(p, n - 1)) - 1) + (n - 1 - BelowCap(p, n - 1)) * p.maxDelayMs + Plain(p, n)
  {
    var power := Pow2(n - 1);
    assert Grown(p, n) == p.initialDelayMs * power;
    if p.initialDelayMs * power <= p.maxDelayMs {
      LastBelowCap(p, n);
      Distribute(p.initialDelayMs, power);
      assert (n - n) * p.maxDelayMs == 0 && (n - 1 - (n - 1)) * p.maxDelayMs == 0;
    } else {
      OneMoreCap(n - 1 - BelowCap(p, n - 1), p.maxDelayMs);
    }
  }

  lemma Distribute(a: int, power: int)
    ensures a * (2 * power - 1) == a * (power - 1) + a * power
  {
  }

  lemma OneMoreCap(k: int, cap: int)
    ensures (k + 1) * cap == k * cap + cap
  {
  }

  /** The delays, with these draws, between the attempts of a delivery that uses up `maxAttempts`. */
  function TotalDelay(p: Policy, draws: seq<real>): Time {
    if draws == [] then 0 else TotalDelay(p, draws[..|draws| - 1]) + Delay(p, |draws|, draws[|draws| - 1])
  }

  /** The longest single delay: the cap and the jitter's share of it. */
  function MostDelay(p: Policy): Time {
    (p.maxDelayMs * (100 + p.jitterPercent) / 100) * MILLISECOND
  }

  /** An exhausted delivery waits at most (max_attempts − 1) times the cap, plus the jitter's share of it. */
  lemma {:induction false} TotalDelayIsBounded(p: Policy, draws: seq<real>)
    requires WithinLimits(p) && forall i :: 0 <= i < |draws| ==> 0.0 <= draws[i] < 1.0
    ensures 0 <= TotalDelay(p, draws) <= |draws| * MostDelay(p)
  {
    if draws != [] {
      var n := |draws| - 1;
      TotalDelayIsBounded(p, draws[..n]);
      OneDelayIsBounded(p, |draws|, draws[n]);
      OneMoreCap(n, MostDelay(p));
    }
  }

  lemma OneDelayIsBounded(p: Policy, attempt: int, draw: real)
    requires WithinLimits(p) && 0.0 <= draw < 1.0
    ensures 0 <= Delay(p, attempt, draw) <= MostDelay(p)
  {
    DelayIsBounded(p, attempt, draw);
    PlainGrows(p, attempt, attempt);
    var plain, cap, percent := Plain(p, attempt), p.maxDelayMs, p.jitterPercent;
    var ms := Delay(p, attempt, draw) / MILLISECOND;
    WholeShare(plain, percent, ms);
    ScaleGrows(100 + percent, plain, cap);
    HundredthsFloor(ms, cap * (100 + percent));
  }

  lemma WholeShare(plain: int, percent: int, ms: int)
    requires ms as real <= plain as real + Share(plain as real, percent)
    ensures 100 * ms <= (100 + percent) * plain
  {
    ProductIsWhole(plain, percent);
    assert Share(plain as real, percent) == (plain * percent) as real / 100.0;
    assert (100 * ms) as real <= (100 * plain + plain * percent) as real;
  }

  lemma HundredthsFloor(ms: int, most: int)
    requires 100 * ms <= most
    ensures ms <= most / 100
  {
  }

  // ----- "fixed" -----

  /** The backoff type "fixed" is treated as exponential. Its delay is the same after every attempt exactly when the cap
      equals the initial delay. */
  lemma FixedIsFixedOnlyAtTheCap(p: Policy)
    requires Checked(p) && p.backoffType == "fixed"
    ensures (forall k :: k >= 1 ==> Plain(p, k) == p.initialDelayMs) <==> p.maxDelayMs == p.initialDelayMs
  {
    assert Pow2(1) == 2;
    assert Grown(p, 2) == p.initialDelayMs * 2;
    if p.maxDelayMs == p.initialDelayMs {
      forall k | k >= 1
        ensures Plain(p, k) == p.initialDelayMs
      {
        PlainGrows(p, k, k);
      }
    } else {
      assert Plain(p, 2) > p.initialDelayMs;
    }
  }

  /** The default policy with a fixed type, for one: ten seconds, then twenty. */
  lemma FixedDoubles()
    ensures var p := Policy("fixed", 10000, 600000, 20);
            Checked(p) && Plain(p, 1) == 10000 && Plain(p, 2) == 20000
  {
    assert Pow2(0) == 1 && Pow2(1) == 2;
  }
}
