/** Types shared by every service, and the few facts about finite sets and sums that the proofs use. */
module Basics {

  /** A UUID, as the 128-bit number PostgreSQL orders it by. `uuid.Nil` is zero. */
  type Uuid = nat

  const NIL_UUID: Uuid := 0

  /** An instant or a duration, in nanoseconds. */
  type Time = int

  const MILLISECOND: Time := 1_000_000
  const SECOND: Time := 1_000_000_000

  datatype Option<+T> = None | Some(value: T) {
    function GetOr(default: T): T {
      match this
      case Some(v) => v
      case None => default
    }
  }

  datatype Result<+T, +E> = Ok(value: T) | Err(error: E)

  /** The errors a transaction can end with; it then leaves no trace in any table. */
  datatype DbError = UniqueViolation | ForeignKeyViolation | NotNullViolation

  function Max(a: int, b: int): int {
    if a >= b then a else b
  }

  function Min(a: int, b: int): int {
    if a <= b then a else b
  }

  function One(b: bool): int {
    if b then 1 else 0
  }

  function Elements<T>(s: seq<T>): set<T> {
    set x | x in s
  }

  ghost predicate Distinct<T>(s: seq<T>) {
    forall i, j :: 0 <= i < j < |s| ==> s[i] != s[j]
  }

  function Pow2(n: nat): nat {
    if n == 0 then 1 else 2 * Pow2(n - 1)
  }

  lemma {:induction false} Pow2Grows(m: nat, n: nat)
    requires m <= n
    ensures 1 <= Pow2(m) <= Pow2(n)
    ensures m < n ==> 2 * Pow2(m) <= Pow2(n)
    decreases n
  {
    if m < n {
      Pow2Grows(m, n - 1);
    } else if n > 0 {
      Pow2Grows(m - 1, n - 1);
    }
  }

  lemma {:induction false} SubsetIsSmaller<T>(a: set<T>, b: set<T>)
    requires a <= b
    ensures |a| <= |b|
  {
    if a == {} {
    } else {
      var x :| x in a;
      SubsetIsSmaller(a - {x}, b - {x});
    }
  }

  /** Pigeonhole: distinct numbers between 1 and n are at most n. */
  lemma {:induction false} Pigeonhole(s: set<int>, n: nat)
    requires forall x :: x in s ==> 1 <= x <= n
    ensures |s| <= n
  {
    if n == 0 {
      assert forall x :: x in s ==> false;
      assert s == {};
    } else {
      Pigeonhole(s - {n}, n - 1);
      if n in s {
        assert s == (s - {n}) + {n};
      } else {
        assert s == s - {n};
      }
    }
  }

  /** A duplicate-free sequence has as many elements as its set. */
  lemma {:induction false} DistinctCard<T>(s: seq<T>)
    requires Distinct(s)
    ensures |Elements(s)| == |s|
  {
    if s == [] {
      assert Elements(s) == {};
    } else {
      var front, last := s[..|s| - 1], s[|s| - 1];
      DistinctCard(front);
      assert s == front + [last];
      assert Elements(s) == Elements(front) + {last};
    }
  }

  /** The sum of a finite table of numbers. */
  ghost function Sum(m: map<Uuid, int>): int {
    if m == map[] then 0
    else
      assert m.Keys != {};
      var k :| k in m;
      m[k] + Sum(m - {k})
  }

  /** The sum does not depend on the order of summation. */
  lemma {:induction false} SumSplit(m: map<Uuid, int>, k: Uuid)
    requires k in m
    ensures Sum(m) == m[k] + Sum(m - {k})
    decreases |m|
  {
    var j :| j in m && Sum(m) == m[j] + Sum(m - {j});
    if j != k {
      assert |m - {j}| < |m| && |m - {k}| < |m| by {
        assert (m - {j}).Keys == m.Keys - {j} && (m - {k}).Keys == m.Keys - {k};
      }
      SumSplit(m - {j}, k);
      SumSplit(m - {k}, j);
      assert m - {j} - {k} == m - {k} - {j};
    }
  }

  /** Raising the entries in `at` by one raises the sum by their number. */
  lemma {:induction false} SumRaise(m: map<Uuid, int>, m': map<Uuid, int>, at: set<Uuid>)
    requires m.Keys == m'.Keys && at <= m.Keys
    requires forall k :: k in m ==> m'[k] == m[k] + if k in at then 1 else 0
    ensures Sum(m') == Sum(m) + |at|
    decreases |m|
  {
    if m == map[] {
      assert at == {};
      assert m' == map[];
    } else {
      var k :| k in m.Keys;
      SumSplit(m, k);
      SumSplit(m', k);
      assert |m - {k}| < |m| by { assert (m - {k}).Keys == m.Keys - {k}; }
      SumRaise(m - {k}, m' - {k}, at - {k});
    }
  }

  lemma {:induction false} SumBounds(m: map<Uuid, int>, m': map<Uuid, int>)
    requires m.Keys == m'.Keys
    requires forall k :: k in m ==> m[k] <= m'[k]
    ensures Sum(m) <= Sum(m')
    decreases |m|
  {
    if m == map[] {
      assert m' == map[];
    } else {
      var k :| k in m.Keys;
      SumSplit(m, k);
      SumSplit(m', k);
      assert |m - {k}| < |m| by { assert (m - {k}).Keys == m.Keys - {k}; }
      SumBounds(m - {k}, m' - {k});
    }
  }
}
