/** Keyset pagination of a tenant's audit trail (backend/admin/repository/platform_admin_repository.py). */
module AuditPaging {
  import opened Basics

  /** A stored time: without a zone it is UTC; `offset` is what the zone adds to UTC. */
  datatype Stamp = Naive(local: int) | Aware(local: int, offset: int)

  function Utc(s: Stamp): int { match s case Naive(t) => t case Aware(t, offset) => t - offset }

  datatype Row = Row(createdAt: Stamp, id: int, action: string, email: string)

  datatype Position = Position(createdAt: int, id: int)

  function PositionOf(r: Row): Position { Position(Utc(r.createdAt), r.id) }

  /** Newer first; the id settles equal times. */
  predicate Above(a: Position, b: Position) {
    a.createdAt > b.createdAt || (a.createdAt == b.createdAt && a.id > b.id)
  }

  /** `to` is exclusive; `keep` stands for the action and e-mail filters. */
  datatype Filter = Filter(from: Option<int>, to: Option<int>, keep: Row -> bool)

  predicate Matches(f: Filter, r: Row) {
    && (f.from.Some? ==> Utc(r.createdAt) >= f.from.value)
    && (f.to.Some? ==> Utc(r.createdAt) < f.to.value)
    && f.keep(r)
  }

  // ------------------------------------------------------------------ cursors

  /** What a client sends back: an encoded payload, or text that does not decode. */
  datatype CursorText = Encoded(stamp: Stamp, id: int) | Garbled

  function EncodeCursor(createdAt: Stamp, id: int): CursorText {
    Encoded(if createdAt.Naive? then Aware(createdAt.local, 0) else createdAt, id)
  }

  function DecodeCursor(cursor: Option<CursorText>): Option<Position> {
    if cursor.None? || cursor.value.Garbled? then None
    else
      var stamp := cursor.value.stamp;
      Some(Position(if stamp.Aware? then stamp.local - stamp.offset else stamp.local, cursor.value.id))
  }

  lemma CursorRoundTrip(r: Row)
    ensures DecodeCursor(Some(EncodeCursor(r.createdAt, r.id))) == Some(PositionOf(r))
  {
  }

  // ------------------------------------------------------------------ the query

  predicate Wanted(f: Filter, after: Option<Position>, r: Row) {
    Matches(f, r) && (after.Some? ==> Above(after.value, PositionOf(r)))
  }

  function Where(table: seq<Row>, f: Filter, after: Option<Position>): seq<Row> {
    if table == [] then []
    else (if Wanted(f, after, table[0]) then [table[0]] else []) + Where(table[1..], f, after)
  }

  function Place(r: Row, s: seq<Row>): seq<Row> {
    if s == [] || Above(PositionOf(r), PositionOf(s[0])) then [r] + s else [s[0]] + Place(r, s[1..])
  }

  function OrderBy(s: seq<Row>): seq<Row> {
    if s == [] then [] else Place(s[0], OrderBy(s[1..]))
  }

  function Take(s: seq<Row>, n: nat): seq<Row> { if |s| <= n then s else s[..n] }

  /** SELECT ... WHERE ... ORDER BY created_at DESC, id DESC, before its LIMIT. */
  function Query(table: seq<Row>, f: Filter, after: Option<Position>): seq<Row> { OrderBy(Where(table, f, after)) }

  predicate UniqueIds(table: seq<Row>) { forall i, j :: 0 <= i < j < |table| ==> table[i].id != table[j].id }

  predicate Descending(s: seq<Row>) {
    forall i, j :: 0 <= i < j < |s| ==> Above(PositionOf(s[i]), PositionOf(s[j]))
  }

  lemma {:induction false} WhereSelects(table: seq<Row>, f: Filter, after: Option<Position>)
    ensures forall r :: r in Where(table, f, after) <==> r in table && Wanted(f, after, r)
    ensures UniqueIds(table) ==> UniqueIds(Where(table, f, after))
  {
    if table != [] {
      WhereSelects(table[1..], f, after);
      assert table == [table[0]] + table[1..];
      var rest := Where(table[1..], f, after);
      if UniqueIds(table) {
        forall i | 0 <= i < |rest| ensures rest[i].id != table[0].id {
          assert rest[i] in table[1..];
        }
      }
    }
  }

  lemma {:induction false} PlaceKeeps(r: Row, s: seq<Row>)
    requires Descending(s) && forall i :: 0 <= i < |s| ==> s[i].id != r.id
    ensures Descending(Place(r, s)) && |Place(r, s)| == |s| + 1
    ensures forall x :: x in Place(r, s) <==> x == r || x in s
  {
    if s == [] {
    } else if Above(PositionOf(r), PositionOf(s[0])) {
      assert forall j :: 0 < j < |s| ==> Above(PositionOf(s[0]), PositionOf(s[j]));
    } else {
      PlaceKeeps(r, s[1..]);
      assert s == [s[0]] + s[1..];
      var rest := Place(r, s[1..]);
      forall j | 0 <= j < |rest| ensures Above(PositionOf(s[0]), PositionOf(rest[j])) {
        assert rest[j] in rest;
        if rest[j] != r {
          assert rest[j] in s[1..];
        }
      }
    }
  }

  lemma {:induction false} OrderByOrders(s: seq<Row>)
    requires UniqueIds(s)
    ensures Descending(OrderBy(s)) && |OrderBy(s)| == |s|
    ensures forall x :: x in OrderBy(s) <==> x in s
  {
    if s != [] {
      OrderByOrders(s[1..]);
      assert s == [s[0]] + s[1..];
      var rest := OrderBy(s[1..]);
      forall i | 0 <= i < |rest| ensures rest[i].id != s[0].id {
        assert rest[i] in s[1..];
      }
      PlaceKeeps(s[0], rest);
    }
  }

  lemma SameHead(s: seq<Row>, t: seq<Row>)
    requires Descending(s) && Descending(t) && s != [] && t != []
    requires s[0] in t && t[0] in s
    ensures s[0] == t[0]
  {
    var i :| 0 <= i < |t| && t[i] == s[0];
    var j :| 0 <= j < |s| && s[j] == t[0];
  }

  /** A descending list is determined by its rows. */
  lemma {:induction false} DescendingIsUnique(s: seq<Row>, t: seq<Row>)
    requires Descending(s) && Descending(t) && forall r :: r in s <==> r in t
    ensures s == t
    decreases |s|
  {
    assert t != [] ==> t[0] in t;
    if s != [] {
      assert s[0] in s && s[0] in t;
      var i :| 0 <= i < |t| && t[i] == s[0];
      assert t[0] in t && t[0] in s;
      SameHead(s, t);
      assert s == [s[0]] + s[1..] && t == [t[0]] + t[1..];
      assert s[0] !in s[1..] && t[0] !in t[1..];
      forall r: Row ensures r in s[1..] <==> r in t[1..] {
        assert r in s <==> r == s[0] || r in s[1..];
        assert r in t <==> r == t[0] || r in t[1..];
      }
      DescendingIsUnique(s[1..], t[1..]);
    }
  }

  /** Asking for what lies below a row of the full list gives the rest of the list after that row. */
  lemma QueryAfterRow(table: seq<Row>, f: Filter, k: nat)
    requires UniqueIds(table) && 0 < k <= |Query(table, f, None)|
    ensures Query(table, f, Some(PositionOf(Query(table, f, None)[k - 1]))) == Query(table, f, None)[k..]
  {
    var all := Query(table, f, None);
    var at := PositionOf(all[k - 1]);
    WhereSelects(table, f, None);
    WhereSelects(table, f, Some(at));
    OrderByOrders(Where(table, f, None));
    OrderByOrders(Where(table, f, Some(at)));
    var rest := Query(table, f, Some(at));
    forall r: Row
      ensures r in rest <==> r in all[k..]
    {
      if r in rest {
        assert r in all;
        var i :| 0 <= i < |all| && all[i] == r;
        assert i >= k;
        assert all[k..][i - k] == r;
      }
      if r in all[k..] {
        var i :| k <= i < |all| && all[i] == r;
        assert r in all;
      }
    }
    DescendingIsUnique(rest, all[k..]);
  }

  /** Rows that are not below the cursor, such as those written since, do not change the page. */
  lemma PageIgnoresRowsAboveCursor(before: seq<Row>, now: seq<Row>, f: Filter, at: Position)
    requires UniqueIds(before) && UniqueIds(now)
    requires forall r :: Above(at, PositionOf(r)) ==> (r in before <==> r in now)
    ensures Query(before, f, Some(at)) == Query(now, f, Some(at))
  {
    WhereSelects(before, f, Some(at));
    WhereSelects(now, f, Some(at));
    OrderByOrders(Where(before, f, Some(at)));
    OrderByOrders(Where(now, f, Some(at)));
    DescendingIsUnique(Query(before, f, Some(at)), Query(now, f, Some(at)));
  }

  // ------------------------------------------------------------------ the code

  function SafeLimit(limit: int): nat { Min(Max(if limit == 0 then 50 else limit, 1), 200) }

  function SafeRowCap(cap: int): nat { Min(Max(if cap == 0 then 50000 else cap, 1), 50000) }

  method ListAuditTrail(table: seq<Row>, f: Filter, limit: int, cursor: Option<CursorText>)
    returns (items: seq<Row>, next: Option<CursorText>)
    ensures
      var rows := Query(table, f, DecodeCursor(cursor));
      && items == Take(rows, SafeLimit(limit))
      && (next.None? <==> |rows| <= SafeLimit(limit))
      && (next.Some? ==> items != [] && DecodeCursor(next) == Some(PositionOf(items[|items| - 1])))
  {
    var n := SafeLimit(limit);
    var rows := Take(Query(table, f, DecodeCursor(cursor)), n + 1);
    items := Take(rows, n);
    next := None;
    if |rows| > n && |items| > 0 {
      var last := items[|items| - 1];
      next := Some(EncodeCursor(last.createdAt, last.id));
      CursorRoundTrip(last);
    }
  }

  /** The query gives every matching row once, newest first. */
  lemma QueryIsExact(table: seq<Row>, f: Filter)
    requires UniqueIds(table)
    ensures Descending(Query(table, f, None))
    ensures forall r :: r in Query(table, f, None) <==> r in table && Matches(f, r)
  {
    WhereSelects(table, f, None);
    OrderByOrders(Where(table, f, None));
  }

  method ExportAuditTrail(table: seq<Row>, f: Filter, cap: int) returns (items: seq<Row>)
    ensures items <= Query(table, f, None) && |items| <= SafeRowCap(cap)
    ensures |items| < SafeRowCap(cap) ==> items == Query(table, f, None)
    ensures UniqueIds(table) ==> Descending(items) && forall r :: r in items ==> r in table && Matches(f, r)
    ensures UniqueIds(table) && |items| < SafeRowCap(cap) ==> forall r :: r in table && Matches(f, r) ==> r in items
  {
    if UniqueIds(table) {
      QueryIsExact(table, f);
    }
    items := Take(OrderBy(Where(table, f, None)), SafeRowCap(cap));
  }

  lemma TakeOnePageMore(whole: seq<Row>, room: nat, n: nat)
    requires room < |whole|
    ensures Take(whole, room) + Take(whole[room..], n) == Take(whole, room + n)
    ensures n >= 1 ==> Take(whole[room..], n) != []
    ensures n >= 1 && room + n < |whole| ==> Take(whole[room..], n)[|Take(whole[room..], n)| - 1] == whole[room + n - 1]
  {
  }

  /** Where a reader stands after some pages: `room` is how many rows they could hold. */
  ghost predicate Following(whole: seq<Row>, n: nat, all: seq<Row>, pages: nat, room: nat, cursor: Option<CursorText>) {
    && pages >= 1 && n >= 1 && room == pages * n && (pages == 1 || |whole| > room - n)
    && all == Take(whole, room) && (cursor.Some? <==> |whole| > room)
    && (cursor.Some? ==> DecodeCursor(cursor) == Some(PositionOf(whole[room - 1])))
  }

  lemma PagesHold(pages: nat, n: nat)
    requires pages >= 1
    ensures pages * n >= n && (pages + 1) * n == pages * n + n
  {
    assert pages * n == (pages - 1) * n + n && (pages - 1) * n >= 0;
  }

  lemma NextPage(table: seq<Row>, f: Filter, n: nat, all: seq<Row>, pages: nat, room: nat, cursor: Option<CursorText>,
                 page: seq<Row>, next: Option<CursorText>)
    requires UniqueIds(table) && Following(Query(table, f, None), n, all, pages, room, cursor) && cursor.Some?
    requires
      var rows := Query(table, f, DecodeCursor(cursor));
      && page == Take(rows, n) && (next.None? <==> |rows| <= n)
      && (next.Some? ==> page != [] && DecodeCursor(next) == Some(PositionOf(page[|page| - 1])))
    ensures Following(Query(table, f, None), n, all + page, pages + 1, room + n, next)
  {
    var whole := Query(table, f, None);
    PagesHold(pages, n);
    QueryAfterRow(table, f, room);
    TakeOnePageMore(whole, room, n);
  }

  lemma LastPage(whole: seq<Row>, n: nat, all: seq<Row>, pages: nat, room: nat)
    requires Following(whole, n, all, pages, room, None)
    ensures all == whole && pages == if whole == [] then 1 else (|whole| + n - 1) / n
  {
    assert (pages - 1) * n == pages * n - n;
    if whole == [] {
      assert pages > 1 ==> (pages - 2) * n >= 0 && pages * n == (pages - 2) * n + 2 * n;
    } else {
      PageCount(|whole|, n, pages);
    }
  }

  /** Following the cursor from the first page until there is none ends, and gives every matching row once,
      newest first, whatever the page size. */
  method FollowCursor(table: seq<Row>, f: Filter, limit: int) returns (all: seq<Row>, pages: nat)
    requires UniqueIds(table)
    ensures Descending(all) && forall r :: r in all <==> r in table && Matches(f, r)
    ensures all == Query(table, f, None)
    ensures pages == if all == [] then 1 else (|all| + SafeLimit(limit) - 1) / SafeLimit(limit)
  {
    ghost var whole, n := Query(table, f, None), SafeLimit(limit);
    var cursor;
    all, cursor := ListAuditTrail(table, f, limit, None);
    pages := 1;
    ghost var room := n;
    while cursor.Some?
      invariant Following(whole, n, all, pages, room, cursor)
      decreases if cursor.Some? then |whole| - room else -1
    {
      var page, next := ListAuditTrail(table, f, limit, cursor);
      NextPage(table, f, n, all, pages, room, cursor, page, next);
      all, cursor, pages, room := all + page, next, pages + 1, room + n;
    }
    LastPage(whole, n, all, pages, room);
    QueryIsExact(table, f);
  }

  lemma PageCount(total: nat, n: nat, pages: nat)
    requires n >= 1 && total >= 1 && pages >= 1 && total <= pages * n && total > (pages - 1) * n
    ensures pages == (total + n - 1) / n
  {
    var q := (total + n - 1) / n;
    assert (pages - 1) * n == pages * n - n;
    assert total + n - 1 == q * n + (total + n - 1) % n;
    assert (q - pages) * n == q * n - pages * n;
    assert q - pages >= 1 ==> (q - pages) * n >= n;
    assert pages - q >= 1 ==> (pages - q) * n >= n;
    assert (pages - q) * n == -((q - pages) * n);
  }

  /** The export is the list the pages make up, cut at its row cap. */
  lemma ExportIsPagesCut(table: seq<Row>, f: Filter, cap: int)
    requires UniqueIds(table)
    ensures
      var out := Take(Query(table, f, None), SafeRowCap(cap));
      && out <= Query(table, f, None) && Descending(out)
      && (|Query(table, f, None)| <= SafeRowCap(cap) ==> forall r :: r in out <==> r in table && Matches(f, r))
  {
    QueryIsExact(table, f);
  }

  // ------------------------------------------------------------------ limits and dates

  /** A date range ends before its upper bound: cut at any moment, a range falls into two parts that share no row. */
  lemma RangesAreHalfOpen(f: Filter, cut: int, r: Row)
    requires (f.from.Some? ==> f.from.value <= cut) && (f.to.Some? ==> cut <= f.to.value)
    ensures Matches(f, r) <==> Matches(f.(to := Some(cut)), r) || Matches(f.(from := Some(cut)), r)
    ensures !(Matches(f.(to := Some(cut)), r) && Matches(f.(from := Some(cut)), r))
    ensures Matches(f.(to := Some(cut)), r) ==> Utc(r.createdAt) < cut
  {
  }

  /** Page sizes and caps: what is asked for within 1 and 200, or 50000, with 50, or 50000, for none. */
  lemma LimitsAre(limit: int, cap: int)
    ensures SafeLimit(limit) == if limit == 0 then 50 else if limit < 1 then 1 else if limit > 200 then 200 else limit
    ensures SafeRowCap(cap) == if cap == 0 || cap > 50000 then 50000 else if cap < 1 then 1 else cap
  {
  }
}
