/** Keyset pagination over (created_at, id), as both List queries do it: one more row than the limit is fetched, newest
    first, strictly below the cursor; if it exists the cursor of the last row shown leads to the next page. */
module KeysetPaging {
  import opened Basics

  /** Go's zero time. A cursor carrying it is read as no cursor at all. */
  const ZERO_TIME: Time := 0

  datatype Key = Key(createdAt: Time, id: Uuid)

  /** The row comparison (created_at, id) < (…, …). */
  predicate Below(a: Key, b: Key) {
    a.createdAt < b.createdAt || (a.createdAt == b.createdAt && a.id < b.id)
  }

  datatype Position = Start | After(key: Key)

  predicate Admits(pos: Position, k: Key) {
    pos.Start? || Below(k, pos.key)
  }

  ghost predicate Descending(s: seq<Key>) {
    forall i, j :: 0 <= i < j < |s| ==> Below(s[j], s[i])
  }

  /** `s` is the whole list of `keys`, newest first. */
  ghost predicate Lists(s: seq<Key>, keys: set<Key>) {
    Descending(s) && Elements(s) == keys
  }

  ghost function Admitted(keys: set<Key>, pos: Position): set<Key> {
    set k | k in keys && Admits(pos, k)
  }

  function PageLimit(requested: int): nat {
    if requested < 1 || requested > 100 then 50 else requested
  }

  /** What the query returns: the first limit + 1 of the admitted keys. */
  ghost predicate Fetched(keys: set<Key>, pos: Position, limit: nat, rows: seq<Key>) {
    && Descending(rows)
    && Elements(rows) <= Admitted(keys, pos)
    && |rows| <= limit + 1
    && forall k :: k in Admitted(keys, pos) && k !in rows ==> |rows| == limit + 1 && forall r :: r in rows ==> Below(k, r)
  }

  /** The page shown and, if more rows exist, the position of the next one. */
  ghost predicate IsPage(keys: set<Key>, pos: Position, limit: nat, items: seq<Key>, next: Option<Position>)
    requires limit > 0
  {
    exists rows :: Fetched(keys, pos, limit, rows) && items == Shown(rows, limit) && next == NextPosition(rows, limit)
  }

  function Shown(rows: seq<Key>, limit: nat): seq<Key> {
    if |rows| > limit then rows[..limit] else rows
  }

  function NextPosition(rows: seq<Key>, limit: nat): Option<Position>
    requires limit > 0
  {
    if |rows| > limit then Some(Resume(rows[limit - 1])) else None
  }

  /** The position a cursor made from `k` is read back as. */
  function Resume(k: Key): Position {
    if k.createdAt == ZERO_TIME then Start else After(k)
  }

  /** PostgreSQL's side of a List query: walk the (created_at DESC, id DESC) index of the table, keep the matching rows
      below the position, stop at limit + 1. */
  method Query(index: seq<Key>, keys: set<Key>, pos: Position, limit: nat) returns (rows: seq<Key>)
    requires Descending(index) && keys <= Elements(index)
    ensures Fetched(keys, pos, limit, rows)
  {
    rows := [];
    var i := 0;
    while i < |index| && |rows| < limit + 1
      invariant 0 <= i <= |index|
      invariant |rows| <= limit + 1 && Descending(rows)
      invariant forall r :: r in rows ==> r in index[..i] && r in Admitted(keys, pos)
      invariant forall j :: 0 <= j < i && index[j] in Admitted(keys, pos) ==> index[j] in rows
    {
      var k := index[i];
      if k in keys && Admits(pos, k) {
        BelowPrefix(index, i, k, rows);
        JoinDescending(rows, [k]);
        rows := rows + [k];
      }
      i := i + 1;
    }
    forall k | k in Admitted(keys, pos) && k !in rows
      ensures |rows| == limit + 1 && forall r :: r in rows ==> Below(k, r)
    {
      assert k in Elements(index);
      var j :| 0 <= j < |index| && index[j] == k;
      assert j >= i;
      assert forall r :: r in rows ==> r in index[..j];
      BelowPrefix(index, j, k, rows);
    }
  }

  lemma BelowPrefix(index: seq<Key>, i: nat, k: Key, rows: seq<Key>)
    requires Descending(index) && i < |index| && index[i] == k && forall r :: r in rows ==> r in index[..i]
    ensures forall r :: r in rows ==> Below(k, r)
  {
    forall r | r in rows
      ensures Below(k, r)
    {
      var j :| 0 <= j < i && index[..i][j] == r;
    }
  }

  // ----- one page -----

  /** A page is a descending stretch just below its position: everything admitted is on it or strictly below its last row,
      and it is the last page exactly when nothing is left. */
  lemma PageIsAStretch(keys: set<Key>, pos: Position, limit: nat, items: seq<Key>, next: Option<Position>)
    requires limit > 0 && IsPage(keys, pos, limit, items, next)
    ensures Descending(items) && |items| <= limit && (forall k :: k in items ==> k in keys && Admits(pos, k))
    ensures forall k :: k in keys && Admits(pos, k) && k !in items ==>
              next.Some? && |items| == limit && Below(k, items[|items| - 1])
    ensures next.Some? ==> |items| == limit && next == Some(Resume(items[limit - 1]))
                           && exists k :: k in keys && Admits(pos, k) && k !in items
  {
    var rows :| Fetched(keys, pos, limit, rows) && items == Shown(rows, limit) && next == NextPosition(rows, limit);
    forall k | k in items
      ensures k in keys && Admits(pos, k)
    {
      assert k in Elements(rows);
    }
    forall k | k in keys && Admits(pos, k) && k !in items
      ensures next.Some? && |items| == limit && Below(k, items[|items| - 1])
    {
      assert k in Admitted(keys, pos);
      if k in rows {
        assert k == rows[limit];
      } else {
        assert rows[limit - 1] in rows;
      }
    }
    if next.Some? {
      assert rows[limit] in Elements(rows);
      assert rows[limit] !in items;
    }
  }

  /** `a` is newer than `b`: created later, or at the same time with the higher id. */
  ghost predicate Newer(a: Key, b: Key) {
    a.createdAt > b.createdAt || (a.createdAt == b.createdAt && a.id > b.id)
  }

  /** The same in plain words: newest first, nothing but keys older than the cursor's, and what is not shown is older than all
      that is, while the page is full and a cursor given. */
  lemma PageIsNewestFirst(keys: set<Key>, pos: Position, limit: nat, items: seq<Key>, next: Option<Position>)
    requires limit > 0 && IsPage(keys, pos, limit, items, next)
    ensures |items| <= limit && forall i, j :: 0 <= i < j < |items| ==> Newer(items[i], items[j])
    ensures forall k :: k in items ==> k in keys && (pos.After? ==> Newer(pos.key, k))
    ensures forall k :: k in keys && (pos.After? ==> Newer(pos.key, k)) && k !in items ==>
              next.Some? && |items| == limit && forall shown :: shown in items ==> Newer(shown, k)
  {
    PageIsAStretch(keys, pos, limit, items, next);
    forall k, shown | k in keys && (pos.After? ==> Newer(pos.key, k)) && k !in items && shown in items
      ensures Newer(shown, k)
    {
      assert Admits(pos, k);
      var i :| 0 <= i < |items| && items[i] == shown;
      var last := items[|items| - 1];
      assert shown == last || Below(last, shown);
    }
  }

  // ----- a walk through the pages -----

  /** A walk: page i is the answer to a query at a moment when the matching keys were tables[i], each page asked for with
      the cursor of the one before. Between the queries rows may come, go and change. */
  ghost predicate Walk(tables: seq<set<Key>>, limits: seq<nat>, pages: seq<seq<Key>>, nexts: seq<Option<Position>>) {
    && |tables| == |limits| == |pages| == |nexts|
    && (forall i :: 0 <= i < |limits| ==> limits[i] > 0)
    && (forall i :: 0 <= i < |tables| ==> forall k :: k in tables[i] ==> k.createdAt != ZERO_TIME)
    && (forall i :: 0 <= i < |tables| ==> PositionAt(nexts, i).Some?
                                          && IsPage(tables[i], PositionAt(nexts, i).value, limits[i], pages[i], nexts[i]))
  }

  ghost function PositionAt(nexts: seq<Option<Position>>, i: nat): Option<Position>
    requires i <= |nexts|
  {
    if i == 0 then Some(Start) else nexts[i - 1]
  }

  ghost function Joined<T>(pages: seq<seq<T>>): seq<T> {
    if pages == [] then [] else Joined(pages[..|pages| - 1]) + pages[|pages| - 1]
  }

  /** After the first i pages: the keys shown are descending, everything that was there all along has been shown or is
      admitted by the next position, and the next position lies below everything shown. */
  ghost predicate Progress(tables: seq<set<Key>>, pages: seq<seq<Key>>, nexts: seq<Option<Position>>, i: nat)
    requires i <= |tables| == |pages| == |nexts|
  {
    var shown := Joined(pages[..i]);
    var pos := PositionAt(nexts, i);
    && Descending(shown)
    && (pos.Some? ==> forall k, s :: s in shown && Admits(pos.value, k) ==> Below(k, s))
    && (forall k :: Throughout(tables, i, k) && k !in shown ==> pos.Some? && Admits(pos.value, k))
  }

  /** `k` matched at each of the first i queries. */
  ghost predicate Throughout(tables: seq<set<Key>>, i: nat, k: Key)
    requires i <= |tables|
  {
    forall j :: 0 <= j < i ==> k in tables[j]
  }

  lemma JoinDescending(a: seq<Key>, b: seq<Key>)
    requires Descending(a) && Descending(b) && forall k, s :: k in b && s in a ==> Below(k, s)
    ensures Descending(a + b)
  {
    var c := a + b;
    forall i, j | 0 <= i < j < |c|
      ensures Below(c[j], c[i])
    {
      if i < |a| <= j {
        assert c[j] in b && c[i] in a;
      }
    }
  }

  lemma PagesJoin<T>(pages: seq<seq<T>>, i: nat)
    requires i < |pages|
    ensures Joined(pages[..i + 1]) == Joined(pages[..i]) + pages[i]
  {
    assert pages[..i + 1][..i] == pages[..i];
  }

  lemma {:induction false} WalkProgresses(tables: seq<set<Key>>, limits: seq<nat>, pages: seq<seq<Key>>, nexts: seq<Option<Position>>, i: nat)
    requires Walk(tables, limits, pages, nexts) && i <= |tables|
    ensures Progress(tables, pages, nexts, i)
  {
    if i > 0 {
      WalkProgresses(tables, limits, pages, nexts, i - 1);
      PageProgresses(tables, limits, pages, nexts, i - 1);
    }
  }

  lemma PageProgresses(tables: seq<set<Key>>, limits: seq<nat>, pages: seq<seq<Key>>, nexts: seq<Option<Position>>, i: nat)
    requires Walk(tables, limits, pages, nexts) && i < |tables| && Progress(tables, pages, nexts, i)
    ensures Progress(tables, pages, nexts, i + 1)
  {
    var shown, pos := Joined(pages[..i]), PositionAt(nexts, i).value;
    var items, next := pages[i], nexts[i];
    PageIsAStretch(tables[i], pos, limits[i], items, next);
    PagesJoin(pages, i);
    JoinDescending(shown, items);
    if next.Some? {
      var last := items[|items| - 1];
      assert last in items && last in tables[i];
      assert next.value == After(last);
      forall k, s | s in shown + items && Admits(next.value, k)
        ensures Below(k, s)
      {
        if s in shown {
          assert Admits(pos, k);
        } else {
          var j :| 0 <= j < |items| && s == items[j];
          assert s == last || Below(last, s);
        }
      }
    }
    forall k | Throughout(tables, i + 1, k) && k !in shown + items
      ensures next.Some? && Admits(next.value, k)
    {
      assert k in tables[i] && Throughout(tables, i, k);
    }
  }

  /** A walk that reached its end: no row is shown twice, all are in strictly descending order, and every row that matched
      at every query of the walk is shown. */
  lemma WalkShowsAll(tables: seq<set<Key>>, limits: seq<nat>, pages: seq<seq<Key>>, nexts: seq<Option<Position>>)
    requires Walk(tables, limits, pages, nexts) && tables != []
    ensures Descending(Joined(pages)) && Distinct(Joined(pages))
    ensures nexts[|nexts| - 1].None? ==> forall k :: Throughout(tables, |tables|, k) ==> k in Joined(pages)
    ensures forall k :: k in Joined(pages) ==> ShownWhileMatching(tables, pages, k)
  {
    WalkProgresses(tables, limits, pages, nexts, |tables|);
    ProgressToTheEnd(tables, pages, nexts);
    DescendingIsDistinct(Joined(pages));
    forall k | k in Joined(pages)
      ensures ShownWhileMatching(tables, pages, k)
    {
      ShownRowsMatched(tables, limits, pages, nexts, k);
    }
  }

  lemma ProgressToTheEnd(tables: seq<set<Key>>, pages: seq<seq<Key>>, nexts: seq<Option<Position>>)
    requires |tables| == |pages| == |nexts| > 0 && Progress(tables, pages, nexts, |tables|)
    ensures Descending(Joined(pages))
    ensures nexts[|nexts| - 1].None? ==> forall k :: Throughout(tables, |tables|, k) ==> k in Joined(pages)
  {
    assert pages[..|tables|] == pages;
  }

  /** `k` is on a page, and matched when that page was queried. */
  ghost predicate ShownWhileMatching(tables: seq<set<Key>>, pages: seq<seq<Key>>, k: Key) {
    exists i :: 0 <= i < |tables| && i < |pages| && k in pages[i] && k in tables[i]
  }

  lemma ShownRowsMatched(tables: seq<set<Key>>, limits: seq<nat>, pages: seq<seq<Key>>, nexts: seq<Option<Position>>, k: Key)
    requires Walk(tables, limits, pages, nexts) && k in Joined(pages)
    ensures ShownWhileMatching(tables, pages, k)
  {
    var i := FindPage(pages, k);
    PageIsAStretch(tables[i], PositionAt(nexts, i).value, limits[i], pages[i], nexts[i]);
    assert k in tables[i];
  }

  lemma DescendingIsDistinct(s: seq<Key>)
    requires Descending(s)
    ensures Distinct(s)
  {
    forall i, j | 0 <= i < j < |s|
      ensures s[i] != s[j]
    {
      assert Below(s[j], s[i]);
    }
  }

  lemma {:induction false} FindPage<T>(pages: seq<seq<T>>, k: T) returns (i: nat)
    requires k in Joined(pages)
    ensures i < |pages| && k in pages[i]
  {
    var n := |pages| - 1;
    if k in pages[n] {
      i := n;
    } else {
      i := FindPage(pages[..n], k);
    }
  }

  lemma {:induction false} ListIsUnique(s: seq<Key>, t: seq<Key>)
    requires Descending(s) && Descending(t) && Elements(s) == Elements(t)
    ensures s == t
    decreases |s|
  {
    if s == [] {
      EmptyHasNoElements(t);
    } else {
      assert s[0] in Elements(t);
      assert t != [];
      var i :| 0 <= i < |t| && t[i] == s[0];
      assert t[0] in Elements(s);
      var j :| 0 <= j < |s| && s[j] == t[0];
      assert s[0] == t[0];
      TailElements(s);
      TailElements(t);
      ListIsUnique(s[1..], t[1..]);
    }
  }

  lemma EmptyHasNoElements(t: seq<Key>)
    ensures t != [] ==> Elements(t) != {}
  {
    if t != [] {
      assert t[0] in Elements(t);
    }
  }

  lemma TailElements(s: seq<Key>)
    requires Descending(s) && s != []
    ensures Descending(s[1..]) && Elements(s[1..]) == Elements(s) - {s[0]}
  {
    forall k | k in Elements(s) && k != s[0]
      ensures k in Elements(s[1..])
    {
      var i :| 0 <= i < |s| && s[i] == k;
      assert s[1..][i - 1] == k;
    }
  }

  /** On a table that does not change, the pages joined are the whole list of matching keys, whatever the limits. */
  lemma WalkOfAStillTable(tables: seq<set<Key>>, limits: seq<nat>, pages: seq<seq<Key>>, nexts: seq<Option<Position>>, keys: set<Key>, list: seq<Key>)
    requires Walk(tables, limits, pages, nexts) && tables != [] && nexts[|nexts| - 1].None?
    requires forall i :: 0 <= i < |tables| ==> tables[i] == keys
    requires Lists(list, keys)
    ensures Joined(pages) == list
  {
    WalkShowsAll(tables, limits, pages, nexts);
    assert Elements(Joined(pages)) == keys by {
      forall k | k in keys
        ensures k in Joined(pages)
      {
        assert Throughout(tables, |tables|, k);
      }
    }
    ListIsUnique(Joined(pages), list);
  }

  /** Following cursors over a still table comes to an end: each page with a successor shows at least one new row. */
  lemma WalkEnds(tables: seq<set<Key>>, limits: seq<nat>, pages: seq<seq<Key>>, nexts: seq<Option<Position>>, keys: set<Key>)
    requires Walk(tables, limits, pages, nexts) && tables != []
    requires forall i :: 0 <= i < |tables| ==> tables[i] == keys && nexts[i].Some?
    ensures |pages| <= |keys|
  {
    WalkShowsAll(tables, limits, pages, nexts);
    forall i | 0 <= i < |pages|
      ensures pages[i] != []
    {
      PageIsAStretch(tables[i], PositionAt(nexts, i).value, limits[i], pages[i], nexts[i]);
    }
    JoinedIsLonger(pages);
    DistinctCard(Joined(pages));
    SubsetIsSmaller(Elements(Joined(pages)), keys);
  }

  lemma {:induction false} JoinedIsLonger(pages: seq<seq<Key>>)
    requires forall i :: 0 <= i < |pages| ==> pages[i] != []
    ensures |Joined(pages)| >= |pages|
  {
    if pages != [] {
      JoinedIsLonger(pages[..|pages| - 1]);
    }
  }

  /** Every set of keys has such a list. */
  lemma {:induction false} ListExists(keys: set<Key>) returns (list: seq<Key>)
    ensures Lists(list, keys)
  {
    if keys == {} {
      list := [];
    } else {
      var top := Highest(keys);
      var rest := ListExists(keys - {top});
      list := [top] + rest;
      assert forall k :: k in rest ==> k in Elements(rest);
      JoinDescending([top], rest);
      assert Elements(list) == {top} + Elements(rest);
    }
  }

  lemma {:induction false} Highest(keys: set<Key>) returns (top: Key)
    requires keys != {}
    ensures top in keys && forall k :: k in keys ==> k == top || Below(k, top)
  {
    var k :| k in keys;
    top := k;
    if keys != {k} {
      var other := Highest(keys - {k});
      if Below(k, other) {
        top := other;
      }
      assert forall x :: x in keys ==> x == k || x in keys - {k};
    } else {
      assert forall x :: x in keys ==> x in {k};
    }
  }

  /** Why creation times must not be zero: a page ending in such a row leads back to the first page. */
  lemma ZeroTimeStartsOver(keys: set<Key>, pos: Position, limit: nat, items: seq<Key>, next: Option<Position>)
    requires limit > 0 && IsPage(keys, pos, limit, items, next) && next.Some?
    ensures next == Some(Start) <==> items[|items| - 1].createdAt == ZERO_TIME
  {
    PageIsAStretch(keys, pos, limit, items, next);
  }

  // ----- paging by attempt number -----

  ghost predicate Ascending(s: seq<int>) {
    forall i, j :: 0 <= i < j < |s| ==> s[i] < s[j]
  }

  /** The numbers of an ascending list above `after`. */
  function Above(index: seq<int>, after: int): seq<int> {
    if index == [] || index[0] > after then index else Above(index[1..], after)
  }

  lemma {:induction false} AboveIsTheRest(index: seq<int>, after: int)
    requires Ascending(index)
    ensures |Above(index, after)| <= |index| && Above(index, after) == index[|index| - |Above(index, after)|..]
    ensures forall k :: 0 <= k < |index| ==> (index[k] > after <==> k >= |index| - |Above(index, after)|)
  {
    if index != [] && index[0] <= after {
      AboveIsTheRest(index[1..], after);
      assert forall k :: 1 <= k < |index| ==> index[k] == index[1..][k - 1];
    }
  }

  /** What following the attempt cursors from `after` shows in all. */
  function AttemptWalk(index: seq<int>, after: int, limit: nat): seq<int>
    requires limit > 0
    decreases |Above(index, after)|
  {
    var rest := Above(index, after);
    if |rest| <= limit then rest
    else if |Above(index, rest[limit - 1])| < |rest| then rest[..limit] + AttemptWalk(index, rest[limit - 1], limit)
    else rest[..limit]
  }

  /** The pages joined are exactly the attempts above the start; from the default cursor 0 that is all of them, because no
      attempt number is below one. */
  lemma {:induction false} AttemptWalkShowsAll(index: seq<int>, after: int, limit: nat)
    requires limit > 0 && Ascending(index)
    ensures AttemptWalk(index, after, limit) == Above(index, after)
    ensures (forall n :: n in index ==> n >= 1) && after == 0 ==> AttemptWalk(index, after, limit) == index
    decreases |Above(index, after)|
  {
    var rest := Above(index, after);
    AboveIsTheRest(index, after);
    if |rest| > limit {
      var last := rest[limit - 1];
      AboveIsTheRest(index, last);
      var skipped := |index| - |rest|;
      assert last == index[skipped + limit - 1];
      assert |Above(index, last)| == |rest| - limit by {
        assert index[skipped + limit] > last;
      }
      assert Above(index, last) == rest[limit..];
      AttemptWalkShowsAll(index, last, limit);
      assert rest[..limit] + rest[limit..] == rest;
    }
    if (forall n :: n in index ==> n >= 1) && after == 0 {
      assert index == [] || index[0] in index;
    }
  }

  function FirstOf(s: seq<int>, limit: nat): seq<int> {
    if |s| > limit then s[..limit] else s
  }

  /** Pages of attempts, page i asked for when indexes[i] was the list and from starts[i] on, each from the last number of the
      page before, to the end. Between the calls attempts may be recorded under any number. */
  ghost predicate AttemptPages(indexes: seq<seq<int>>, limits: seq<nat>, starts: seq<int>, pages: seq<seq<int>>) {
    && |indexes| == |limits| == |starts| == |pages| > 0
    && (forall i :: 0 <= i < |pages| ==> limits[i] > 0 && Ascending(indexes[i]) && pages[i] == FirstOf(Above(indexes[i], starts[i]), limits[i]))
    && (forall i :: 0 <= i < |pages| - 1 ==> LeadsTo(indexes[i], starts[i], limits[i], starts[i + 1]))
    && |Above(indexes[|pages| - 1], starts[|pages| - 1])| <= limits[|pages| - 1]
  }

  ghost predicate LeadsTo(index: seq<int>, start: int, limit: nat, next: int) {
    limit > 0 && |Above(index, start)| > limit && next == Above(index, start)[limit - 1]
  }

  lemma AboveHas(index: seq<int>, start: int, n: int)
    requires Ascending(index)
    ensures Ascending(Above(index, start)) && (n in Above(index, start) <==> n in index && n > start)
  {
    AboveIsTheRest(index, start);
    var rest := Above(index, start);
    assert forall k :: 0 <= k < |rest| ==> rest[k] == index[|index| - |rest| + k];
    if n in index && n > start {
      var k :| 0 <= k < |index| && index[k] == n;
      assert rest[k - (|index| - |rest|)] == n;
    }
  }

  /** One page holds exactly the attempts there are between its start and the start of the next. */
  lemma AttemptPageHas(index: seq<int>, start: int, limit: nat, n: int)
    requires Ascending(index) && limit > 0
    ensures var rest := Above(index, start);
            && Ascending(FirstOf(rest, limit))
            && (n in FirstOf(rest, limit) <==> n in index && start < n && (|rest| > limit ==> n <= rest[limit - 1]))
            && (|rest| > limit ==> start < rest[limit - 1])
  {
    var rest := Above(index, start);
    AboveHas(index, start, n);
    if |rest| > limit {
      AboveHas(index, start, rest[limit - 1]);
      if n in rest && n <= rest[limit - 1] {
        var k :| 0 <= k < |rest| && rest[k] == n;
        assert rest[..limit][k] == n;
      }
    }
  }

  /** Attempt `n` was there when the page that covers it was asked for. */
  ghost predicate ThereInTime(indexes: seq<seq<int>>, starts: seq<int>, i: nat, n: int)
    requires i < |indexes| == |starts|
  {
    n in indexes[i] && starts[i] < n && (i + 1 < |starts| ==> n <= starts[i + 1])
  }

  /** Exactly which attempts a client sees that follows the cursors while attempts are being recorded: those that were there
      when the page covering their number was asked for. */
  lemma AttemptShownExactly(indexes: seq<seq<int>>, limits: seq<nat>, starts: seq<int>, pages: seq<seq<int>>, n: int)
    requires AttemptPages(indexes, limits, starts, pages)
    ensures n in Joined(pages) <==> exists i :: 0 <= i < |indexes| && ThereInTime(indexes, starts, i, n)
  {
    forall i | 0 <= i < |indexes|
      ensures n in pages[i] <==> ThereInTime(indexes, starts, i, n)
    {
      AttemptPageHas(indexes[i], starts[i], limits[i], n);
      if i < |pages| - 1 {
        assert LeadsTo(indexes[i], starts[i], limits[i], starts[i + 1]);
      }
    }
    if n in Joined(pages) {
      var i := FindPage(pages, n);
      assert ThereInTime(indexes, starts, i, n);
    }
    if i :| 0 <= i < |indexes| && ThereInTime(indexes, starts, i, n) {
      InJoined(pages, i, n);
    }
  }

  lemma {:induction false} InJoined<T>(pages: seq<seq<T>>, i: nat, x: T)
    requires i < |pages| && x in pages[i]
    ensures x in Joined(pages)
  {
    if i < |pages| - 1 {
      InJoined(pages[..|pages| - 1], i, x);
    }
  }

  lemma AttemptPageIsAStretch(indexes: seq<seq<int>>, limits: seq<nat>, starts: seq<int>, pages: seq<seq<int>>, k: nat)
    requires AttemptPages(indexes, limits, starts, pages) && k < |pages|
    ensures Ascending(pages[k])
    ensures forall n :: n in pages[k] ==> starts[k] < n && (k + 1 < |pages| ==> n <= starts[k + 1])
    ensures k + 1 < |pages| ==> starts[k] < starts[k + 1]
  {
    AttemptPageHas(indexes[k], starts[k], limits[k], 0);
    if k + 1 < |pages| {
      assert LeadsTo(indexes[k], starts[k], limits[k], starts[k + 1]);
    }
    forall n | n in pages[k]
      ensures starts[k] < n && (k + 1 < |pages| ==> n <= starts[k + 1])
    {
      AttemptPageHas(indexes[k], starts[k], limits[k], n);
    }
  }

  /** The numbers shown rise strictly, so no attempt is shown twice. */
  lemma {:induction false} AttemptsShownRise(indexes: seq<seq<int>>, limits: seq<nat>, starts: seq<int>, pages: seq<seq<int>>, i: nat)
    requires AttemptPages(indexes, limits, starts, pages) && i <= |pages|
    ensures Ascending(Joined(pages[..i])) && (i < |pages| ==> forall n :: n in Joined(pages[..i]) ==> n <= starts[i])
    ensures i == |pages| ==> Ascending(Joined(pages))
  {
    if i > 0 {
      var k := i - 1;
      AttemptsShownRise(indexes, limits, starts, pages, k);
      PagesJoin(pages, k);
      AttemptPageIsAStretch(indexes, limits, starts, pages, k);
      JoinAscending(Joined(pages[..k]), pages[k], starts[k]);
    }
    if i == |pages| {
      assert pages[..i] == pages;
    }
  }

  lemma JoinAscending(a: seq<int>, b: seq<int>, between: int)
    requires Ascending(a) && Ascending(b) && (forall n :: n in a ==> n <= between) && (forall n :: n in b ==> between < n)
    ensures Ascending(a + b)
  {
    var c := a + b;
    forall i, j | 0 <= i < j < |c|
      ensures c[i] < c[j]
    {
      if i < |a| <= j {
        assert c[i] in a && c[j] in b;
      }
    }
  }

  /** In particular every attempt that was there at each call is shown. */
  lemma AttemptsThereAreShown(indexes: seq<seq<int>>, limits: seq<nat>, starts: seq<int>, pages: seq<seq<int>>, n: int)
    requires AttemptPages(indexes, limits, starts, pages)
    requires starts[0] < n && forall i :: 0 <= i < |indexes| ==> n in indexes[i]
    ensures n in Joined(pages)
  {
    var i := CoveringPage(starts, n);
    assert ThereInTime(indexes, starts, i, n);
    AttemptShownExactly(indexes, limits, starts, pages, n);
  }

  lemma {:induction false} CoveringPage(starts: seq<int>, n: int) returns (i: nat)
    requires starts != [] && starts[0] < n
    ensures i < |starts| && starts[i] < n && (i + 1 < |starts| ==> n <= starts[i + 1])
  {
    if starts[|starts| - 1] < n {
      i := |starts| - 1;
    } else {
      i := CoveringPage(starts[..|starts| - 1], n);
      assert i + 1 == |starts| - 1 || starts[..|starts| - 1][i + 1] == starts[i + 1];
    }
  }

  // ----- the cursor text -----

  /** The library's encoders and decoders for instants, UUIDs, decimal numbers and base64url (section 5 of RFC 4648). */
  datatype Codec = Codec(
    formatTime: Time -> string, parseTime: string -> Option<Time>,
    formatId: Uuid -> string, parseId: string -> Option<Uuid>,
    formatNumber: int -> string, parseNumber: string -> Option<int>,
    encode: string -> string, decode: string -> Option<string>)

  ghost predicate Lossless(c: Codec) {
    && (forall t :: c.parseTime(c.formatTime(t)) == Some(t) && '|' !in c.formatTime(t))
    && (forall id: Uuid :: c.parseId(c.formatId(id)) == Some(id) && '|' !in c.formatId(id))
    && (forall n :: c.parseNumber(c.formatNumber(n)) == Some(n) && c.formatNumber(n) != "")
    && (forall s :: c.decode(c.encode(s)) == Some(s) && (s != "" ==> c.encode(s) != ""))
  }

  /** strings.Split for a one-character separator. */
  function Split(s: string, separator: char): (parts: seq<string>)
    ensures |parts| > 0
  {
    if s == "" then [""]
    else
      var rest := Split(s[1..], separator);
      if s[0] == separator then [""] + rest else [[s[0]] + rest[0]] + rest[1..]
  }

  lemma {:induction false} SplitWithout(s: string, separator: char)
    requires separator !in s
    ensures Split(s, separator) == [s]
  {
    if s != "" {
      SplitWithout(s[1..], separator);
      assert [s[0]] + s[1..] == s;
    }
  }

  lemma {:induction false} SplitOnce(a: string, b: string, separator: char)
    requires separator !in a && separator !in b
    ensures Split(a + [separator] + b, separator) == [a, b]
  {
    var s := a + [separator] + b;
    if a == "" {
      assert s[1..] == b;
      SplitWithout(b, separator);
    } else {
      assert s[1..] == a[1..] + [separator] + b;
      SplitOnce(a[1..], b, separator);
      assert [a[0]] + a[1..] == a;
    }
  }

  function CursorOf(c: Codec, k: Key): string {
    c.encode(c.formatTime(k.createdAt) + "|" + c.formatId(k.id))
  }

  datatype CursorError = InvalidCursor

  function ReadCursor(c: Codec, cursor: string): Result<Position, CursorError> {
    if cursor == "" then Ok(Start)
    else
      match c.decode(cursor)
      case None => Err(InvalidCursor)
      case Some(text) =>
        var parts := Split(text, '|');
        if |parts| != 2 then Err(InvalidCursor)
        else
          match (c.parseTime(parts[0]), c.parseId(parts[1]))
          case (Some(t), Some(id)) => Ok(if t == ZERO_TIME then Start else After(Key(t, id)))
          case _ => Err(InvalidCursor)
  }

  /** A cursor is read back as the position it was made from. */
  lemma CursorRoundTrip(c: Codec, k: Key)
    requires Lossless(c)
    ensures ReadCursor(c, CursorOf(c, k)) == Ok(Resume(k))
  {
    var text := c.formatTime(k.createdAt) + "|" + c.formatId(k.id);
    assert c.decode(c.encode(text)) == Some(text);
    assert text != "" && c.encode(text) != "";
    SplitOnce(c.formatTime(k.createdAt), c.formatId(k.id), '|');
    assert text == c.formatTime(k.createdAt) + ['|'] + c.formatId(k.id);
  }

  lemma {:induction false} SplitGlues(s: string, separator: char)
    ensures |Split(s, separator)| == 1 ==> separator !in s && Split(s, separator)[0] == s
    ensures |Split(s, separator)| == 2 ==>
              var parts := Split(s, separator);
              separator !in parts[0] && separator !in parts[1] && s == parts[0] + [separator] + parts[1]
  {
    if s != "" {
      var rest := Split(s[1..], separator);
      SplitGlues(s[1..], separator);
      assert s == [s[0]] + s[1..];
      if s[0] == separator && |rest| == 1 {
        assert Split(s, separator) == ["", rest[0]];
      }
    }
  }

  /** The cursor text decodes to an instant and an id with a bar between them, and nothing else. */
  ghost predicate Spells(c: Codec, cursor: string, time: string, id: string) {
    '|' !in time && '|' !in id && c.decode(cursor) == Some(time + ['|'] + id) && c.parseTime(time).Some? && c.parseId(id).Some?
  }

  /** Exactly which cursors are read, and how: the empty one as the start; and one that spells an instant and an id as the
      position after them, or as the start if the instant is zero. Every other is refused. */
  lemma CursorReadExactly(c: Codec, cursor: string)
    ensures ReadCursor(c, cursor).Ok? <==> cursor == "" || exists time, id :: Spells(c, cursor, time, id)
    ensures cursor == "" ==> ReadCursor(c, cursor) == Ok(Start)
    ensures forall time, id :: cursor != "" && Spells(c, cursor, time, id) ==>
              ReadCursor(c, cursor) == Ok(if c.parseTime(time).value == 0 then Start else After(Key(c.parseTime(time).value, c.parseId(id).value)))
  {
    forall time, id | cursor != "" && Spells(c, cursor, time, id)
      ensures ReadCursor(c, cursor) == Ok(if c.parseTime(time).value == 0 then Start else After(Key(c.parseTime(time).value, c.parseId(id).value)))
    {
      SplitOnce(time, id, '|');
    }
    if cursor != "" && ReadCursor(c, cursor).Ok? {
      var text := c.decode(cursor).value;
      SplitGlues(text, '|');
      assert Spells(c, cursor, Split(text, '|')[0], Split(text, '|')[1]);
    }
  }

  function AttemptCursorOf(c: Codec, n: int): string {
    c.encode(c.formatNumber(n))
  }

  /** No cursor means 0; a cursor that is no number, or a negative one, is refused. */
  function ReadAttemptCursor(c: Codec, cursor: string): Result<nat, CursorError> {
    if cursor == "" then Ok(0)
    else
      match c.decode(cursor)
      case None => Err(InvalidCursor)
      case Some(text) =>
        match c.parseNumber(text)
        case None => Err(InvalidCursor)
        case Some(n) => if n < 0 then Err(InvalidCursor) else Ok(n)
  }

  /** An attempt cursor is read back as its attempt number, as long as that is not negative. */
  lemma AttemptCursorRoundTrip(c: Codec, n: int)
    requires Lossless(c)
    ensures ReadAttemptCursor(c, AttemptCursorOf(c, n)) == if n >= 0 then Ok(n) else Err(InvalidCursor)
  {
    assert c.decode(c.encode(c.formatNumber(n))) == Some(c.formatNumber(n));
    assert c.parseNumber(c.formatNumber(n)) == Some(n);
  }

  // ----- following cursor texts -----

  /** What a List call answers about the matching keys: a page, and a cursor for the next one or the empty text. */
  ghost predicate IsAnswer(c: Codec, keys: set<Key>, requested: int, cursor: string, shown: seq<Key>, nextCursor: string) {
    ReadCursor(c, cursor).Ok?
    && exists next :: IsPage(keys, ReadCursor(c, cursor).value, PageLimit(requested), shown, next) && IsCursorFor(c, shown, next, nextCursor)
  }

  ghost predicate IsCursorFor(c: Codec, shown: seq<Key>, next: Option<Position>, nextCursor: string) {
    if next.Some? then |shown| > 0 && nextCursor == CursorOf(c, shown[|shown| - 1]) else nextCursor == ""
  }

  /** A client that follows the cursors: the first call has none, each later one the cursor of the answer before. */
  ghost predicate Followed(c: Codec, tables: seq<set<Key>>, requested: seq<int>, cursors: seq<string>, pages: seq<seq<Key>>) {
    && |tables| == |requested| == |pages| && |cursors| == |tables| + 1 && cursors[0] == ""
    && (forall i :: 0 < i < |tables| ==> cursors[i] != "")
    && (forall i :: 0 <= i < |tables| ==> forall k :: k in tables[i] ==> k.createdAt != ZERO_TIME)
    && (forall i :: 0 <= i < |tables| ==> IsAnswer(c, tables[i], requested[i], cursors[i], pages[i], cursors[i + 1]))
  }

  /** The position a cursor stands for; the empty text after a page stands for the end. */
  function PositionOf(c: Codec, cursor: string): Option<Position> {
    if cursor == "" || ReadCursor(c, cursor).Err? then None else Some(ReadCursor(c, cursor).value)
  }

  /** The position a page leads to is the one its cursor stands for. */
  lemma AnswerIsAPage(c: Codec, keys: set<Key>, requested: int, cursor: string, shown: seq<Key>, nextCursor: string)
    requires Lossless(c) && IsAnswer(c, keys, requested, cursor, shown, nextCursor)
    ensures IsPage(keys, ReadCursor(c, cursor).value, PageLimit(requested), shown, PositionOf(c, nextCursor))
  {
    var next :| IsPage(keys, ReadCursor(c, cursor).value, PageLimit(requested), shown, next) && IsCursorFor(c, shown, next, nextCursor);
    if next.Some? {
      PageIsAStretch(keys, ReadCursor(c, cursor).value, PageLimit(requested), shown, next);
      CursorRoundTrip(c, shown[|shown| - 1]);
      CursorIsNotEmpty(c, shown[|shown| - 1]);
    }
  }

  lemma CursorIsNotEmpty(c: Codec, k: Key)
    requires Lossless(c)
    ensures CursorOf(c, k) != ""
  {
    var text := c.formatTime(k.createdAt) + "|" + c.formatId(k.id);
    assert text != "" && c.encode(text) != "";
  }

  /** Chaining List calls through their cursor texts is a walk. */
  lemma FollowedCursorsAreAWalk(c: Codec, tables: seq<set<Key>>, requested: seq<int>, cursors: seq<string>, pages: seq<seq<Key>>)
    returns (limits: seq<nat>, nexts: seq<Option<Position>>)
    requires Lossless(c) && Followed(c, tables, requested, cursors, pages)
    ensures Walk(tables, limits, pages, nexts)
    ensures tables != [] ==> (nexts[|nexts| - 1].None? <==> cursors[|tables|] == "")
  {
    limits := seq(|tables|, i requires 0 <= i < |tables| => PageLimit(requested[i]));
    nexts := seq(|tables|, i requires 0 <= i < |tables| => PositionOf(c, cursors[i + 1]));
    FollowedPagesAreAWalk(c, tables, requested, cursors, pages, limits, nexts);
    if tables != [] {
      LastCursor(c, tables, requested, cursors, pages);
    }
  }

  lemma FollowedPagesAreAWalk(c: Codec, tables: seq<set<Key>>, requested: seq<int>, cursors: seq<string>, pages: seq<seq<Key>>,
                              limits: seq<nat>, nexts: seq<Option<Position>>)
    requires Lossless(c) && Followed(c, tables, requested, cursors, pages) && |limits| == |nexts| == |tables|
    requires forall i :: 0 <= i < |tables| ==> limits[i] == PageLimit(requested[i]) && nexts[i] == PositionOf(c, cursors[i + 1])
    ensures Walk(tables, limits, pages, nexts)
  {
    forall i | 0 <= i < |tables|
      ensures PositionAt(nexts, i).Some? && IsPage(tables[i], PositionAt(nexts, i).value, limits[i], pages[i], nexts[i])
    {
      FollowedPage(c, tables, requested, cursors, pages, i);
      assert i > 0 ==> nexts[i - 1] == PositionOf(c, cursors[i]);
    }
  }

  lemma FollowedPage(c: Codec, tables: seq<set<Key>>, requested: seq<int>, cursors: seq<string>, pages: seq<seq<Key>>, i: nat)
    requires Lossless(c) && Followed(c, tables, requested, cursors, pages) && i < |tables|
    ensures var pos := if i == 0 then Some(Start) else PositionOf(c, cursors[i]);
            pos.Some? && IsPage(tables[i], pos.value, PageLimit(requested[i]), pages[i], PositionOf(c, cursors[i + 1]))
  {
    assert IsAnswer(c, tables[i], requested[i], cursors[i], pages[i], cursors[i + 1]);
    AnswerIsAPage(c, tables[i], requested[i], cursors[i], pages[i], cursors[i + 1]);
  }

  lemma LastCursor(c: Codec, tables: seq<set<Key>>, requested: seq<int>, cursors: seq<string>, pages: seq<seq<Key>>)
    requires Lossless(c) && Followed(c, tables, requested, cursors, pages) && tables != []
    ensures PositionOf(c, cursors[|tables|]).None? <==> cursors[|tables|] == ""
  {
    var n := |tables| - 1;
    assert IsAnswer(c, tables[n], requested[n], cursors[n], pages[n], cursors[n + 1]);
    if cursors[n + 1] != "" {
      CursorRoundTrip(c, pages[n][|pages[n]| - 1]);
    }
  }

  /** So a client that follows the cursors until one is empty sees no row twice, all in strictly descending order, every row
      that matched at each call, and only rows that matched when shown. */
  lemma FollowingCursorsShowsAll(c: Codec, tables: seq<set<Key>>, requested: seq<int>, cursors: seq<string>, pages: seq<seq<Key>>)
    requires Lossless(c) && Followed(c, tables, requested, cursors, pages) && tables != []
    ensures Descending(Joined(pages)) && Distinct(Joined(pages))
    ensures cursors[|tables|] == "" ==> forall k :: Throughout(tables, |tables|, k) ==> k in Joined(pages)
    ensures forall k :: k in Joined(pages) ==> ShownWhileMatching(tables, pages, k)
  {
    var limits, nexts := FollowedCursorsAreAWalk(c, tables, requested, cursors, pages);
    WalkShowsAll(tables, limits, pages, nexts);
  }
}
