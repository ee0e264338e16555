// The public listings: order book, orders and trades, each paged by the sort fields of the last row.
module Market {
  import opened Bytes
  import opened Keyset
  import opened Lists
  import opened OrderArgs
  import opened Projection
  import opened StableSort

  datatype OrderRow = OrderRow(
    id: string, price: nat, block: int, tx: int, createdAt: int,
    status: Status, asset: string, direction: Direction, maker: string)

  datatype TradeRow = TradeRow(id: string, block: int, asset: string, reverted: bool)

  // ---- Database filters ----

  datatype Test = Any | Equals(n: int) | Above(n: int) | Below(n: int)

  // One alternative of a filter: a test for each sort field, and possibly a lower bound on the id.
  datatype Clause = Clause(tests: seq<Test>, idAbove: Option<string>)

  predicate Passes(t: Test, n: int) {
    match t
    case Any => true
    case Equals(m) => n == m
    case Above(m) => n > m
    case Below(m) => n < m
  }

  predicate Matches(c: Clause, fields: seq<int>, id: string) {
    && |c.tests| == |fields|
    && (forall i :: 0 <= i < |fields| ==> Passes(c.tests[i], fields[i]))
    && (c.idAbove.Some? ==> CompareIds(c.idAbove.value, id) < 0)
  }

  predicate MatchesAny(clauses: seq<Clause>, fields: seq<int>, id: string) {
    exists i :: 0 <= i < |clauses| && Matches(clauses[i], fields, id)
  }

  function CompareIds(a: string, b: string): int {
    Lex(Codes(a), Codes(b))
  }

  // a stands before b in the sequence of characters.
  ghost predicate StandsBefore(a: string, b: string) {
    exists k :: 0 <= k <= |a| && k <= |b| && a[..k] == b[..k]
      && (if k == |a| then k < |b| else k < |b| && a[k] < b[k])
  }

  // Ids ascend character by character.
  lemma {:induction false} IdsAscend(a: string, b: string)
    ensures CompareIds(a, b) < 0 <==> StandsBefore(a, b)
  {
    if a == [] || b == [] {
      assert Codes(a) == [] || Codes(b) == [];
      if a == [] && b != [] {
        assert a[..0] == b[..0];
      }
    } else {
      var s, t := a[1..], b[1..];
      assert Codes(a) == [a[0] as int] + Codes(s) && Codes(b) == [b[0] as int] + Codes(t);
      LexCons(a[0] as int, Codes(s), b[0] as int, Codes(t));
      if a[0] == b[0] {
        IdsAscend(s, t);
        BeforeCons(a, b);
      } else {
        assert a[..0] == b[..0];
        assert forall k :: 0 < k <= |a| && k <= |b| ==> a[..k][0] != b[..k][0];
      }
    }
  }

  lemma BeforeCons(a: string, b: string)
    requires a != [] && b != [] && a[0] == b[0]
    ensures StandsBefore(a, b) <==> StandsBefore(a[1..], b[1..])
  {
    var s, t := a[1..], b[1..];
    if StandsBefore(a, b) {
      var k :| 0 <= k <= |a| && k <= |b| && a[..k] == b[..k]
        && (if k == |a| then k < |b| else k < |b| && a[k] < b[k]);
      assert k > 0;
      assert s[..k - 1] == a[..k][1..] && t[..k - 1] == b[..k][1..];
    }
    if StandsBefore(s, t) {
      var k :| 0 <= k <= |s| && k <= |t| && s[..k] == t[..k]
        && (if k == |s| then k < |t| else k < |t| && s[k] < t[k]);
      assert a[..k + 1] == [a[0]] + s[..k] && b[..k + 1] == [b[0]] + t[..k];
      assert a[..k + 1] == b[..k + 1];
    }
  }

  lemma LexCons(x: int, s: Key, y: int, t: Key)
    ensures Lex([x] + s, [y] + t) == if x != y then x - y else Lex(s, t)
  {
    assert ([x] + s)[1..] == s && ([y] + t)[1..] == t;
  }

  // Sorting depends on the comparator's answers only.
  lemma {:induction false} SortAgrees<R(!new)>(c: Comparator<R>, d: Comparator<R>, s: seq<R>)
    requires forall x, y :: c(x, y) == d(x, y)
    ensures Sort(c, s) == Sort(d, s)
  {
    if s != [] {
      SortAgrees(c, d, s[..|s| - 1]);
      InsertAgrees(c, d, s[|s| - 1], Sort(c, s[..|s| - 1]));
    }
  }

  lemma {:induction false} InsertAgrees<R(!new)>(c: Comparator<R>, d: Comparator<R>, x: R, s: seq<R>)
    requires forall x, y :: c(x, y) == d(x, y)
    ensures Insert(c, x, s) == Insert(d, x, s)
  {
    if s != [] {
      InsertAgrees(c, d, x, s[..|s| - 1]);
    }
  }

  // Filtering by a query and the cursor's clauses at once is filtering by the query, then by the cursor.
  lemma {:induction false} FilterSplits<R(!new)>(rows: seq<R>, both: R -> bool, listed: R -> bool, key: R -> Key,
                                                 after: Option<Key>)
    requires forall r :: both(r) <==> listed(r) && IsPast(key(r), after)
    ensures Filter(rows, both) == Past(Filter(rows, listed), key, after)
  {
    if rows != [] {
      var n := |rows| - 1;
      FilterSplits(rows[..n], both, listed, key, after);
      var before := Filter(rows[..n], listed);
      FilterSnoc(before, rows[n], PastTest(key, after));
      assert Filter(before + [], PastTest(key, after)) == Past(before, key, after) by {
        assert before + [] == before;
      }
    }
  }

  function FirstRows<R>(rows: seq<R>, n: nat): seq<R> {
    if |rows| > n then rows[..n] else rows
  }

  // What a query finds in the comparator's sequence, one row past the limit.
  function Found<R(!new)>(rows: seq<R>, keep: R -> bool, order: Comparator<R>, limit: nat): seq<R> {
    FirstRows(Sort(order, Filter(rows, keep)), limit + 1)
  }

  ghost predicate IsPage<R(!new)>(page: Page<R>, found: seq<R>, key: R -> Key, limit: nat)
    requires limit >= 1
  {
    && page.items == FirstRows(found, limit)
    && (page.next == if |found| > limit then Some(key(found[limit - 1])) else None)
  }

  lemma FoundIsPage<R(!new)>(rows: seq<R>, both: R -> bool, listed: R -> bool, order: Comparator<R>,
                             key: R -> Key, after: Option<Key>, limit: nat)
    requires limit >= 1
    requires forall r :: both(r) <==> listed(r) && IsPast(key(r), after)
    requires forall x, y :: order(x, y) == Lex(key(x), key(y))
    ensures IsPage(PageOf(Filter(rows, listed), key, after, limit), Found(rows, both, order, limit), key, limit)
  {
    FilterSplits(rows, both, listed, key, after);
    assert forall x, y :: ByKey(key)(x, y) == Lex(key(x), key(y));
    SortAgrees(order, ByKey(key), Filter(rows, both));
    var sorted := Sort(order, Filter(rows, both));
    if |sorted| > limit + 1 {
      assert sorted[..limit + 1][..limit] == sorted[..limit];
    }
  }

  lemma MatchesOne(t: Test, above: Option<string>, n: int, id: string)
    ensures Matches(Clause([t], above), [n], id) <==>
      Passes(t, n) && (above.Some? ==> CompareIds(above.value, id) < 0)
  {
    var c := Clause([t], above);
    assert Passes(c.tests[0], [n][0]) <==> Passes(t, n);
  }

  lemma MatchesThree(t: Test, u: Test, v: Test, above: Option<string>, l: int, m: int, n: int, id: string)
    ensures Matches(Clause([t, u, v], above), [l, m, n], id) <==>
      Passes(t, l) && Passes(u, m) && Passes(v, n) && (above.Some? ==> CompareIds(above.value, id) < 0)
  {
    var c, fields := Clause([t, u, v], above), [l, m, n];
    assert Passes(c.tests[0], fields[0]) <==> Passes(t, l);
    assert Passes(c.tests[1], fields[1]) <==> Passes(u, m);
    assert Passes(c.tests[2], fields[2]) <==> Passes(v, n);
  }

  // ---- /order-book ----

  datatype BookQuery = BookQuery(asset: Option<string>, direction: Option<Direction>, limit: nat)

  datatype BookCursor = BookCursor(p: nat, b: int, t: int, i: string)

  datatype BookFilter = BookFilter(status: Status, asset: Option<string>, direction: Option<Direction>,
                                   alternatives: Option<seq<Clause>>)

  function PriceDirection(q: BookQuery): int {
    if q.direction == Some(Bid) then -1 else 1
  }

  predicate BookMatches(f: BookFilter, r: OrderRow) {
    && r.status == f.status
    && (f.asset.Some? ==> r.asset == f.asset.value)
    && (f.direction.Some? ==> r.direction == f.direction.value)
    && (f.alternatives.Some? ==> MatchesAny(f.alternatives.value, [r.price, r.block, r.tx], r.id))
  }

  function CompareInBook(direction: int, x: OrderRow, y: OrderRow): int {
    if x.price != y.price then direction * (x.price - y.price)
    else if x.block != y.block then x.block - y.block
    else if x.tx != y.tx then x.tx - y.tx
    else CompareIds(x.id, y.id)
  }

  // What the book lists, whatever the cursor.
  predicate InBook(q: BookQuery, r: OrderRow) {
    r.status == Live && (q.asset.Some? ==> r.asset == q.asset.value)
      && (q.direction.Some? ==> r.direction == q.direction.value)
  }

  function BookTest(f: BookFilter): OrderRow -> bool {
    (r: OrderRow) => BookMatches(f, r)
  }

  function BookOrder(direction: int): Comparator<OrderRow> {
    (x: OrderRow, y: OrderRow) => CompareInBook(direction, x, y)
  }

  function Listed(q: BookQuery): OrderRow -> bool {
    (r: OrderRow) => InBook(q, r)
  }

  function BookListing(q: BookQuery, orders: seq<OrderRow>): seq<OrderRow> {
    Filter(orders, Listed(q))
  }

  function BookFields(direction: int, p: nat, b: int, t: int, i: string): Key {
    [direction * p] + ([b] + ([t] + Codes(i)))
  }

  function BookKey(q: BookQuery): OrderRow -> Key {
    (r: OrderRow) => BookFields(PriceDirection(q), r.price, r.block, r.tx, r.id)
  }

  function BookPlace(q: BookQuery, c: Option<BookCursor>): Option<Key> {
    if c.None? then None else Some(BookFields(PriceDirection(q), c.value.p, c.value.b, c.value.t, c.value.i))
  }

  lemma CompareBookFields(d: int, p: nat, b: int, t: int, i: string, p': nat, b': int, t': int, i': string)
    requires d == 1 || d == -1
    ensures Lex(BookFields(d, p, b, t, i), BookFields(d, p', b', t', i')) ==
      if p != p' then d * (p - p') else if b != b' then b - b' else if t != t' then t - t' else CompareIds(i, i')
  {
    LexCons(d * p, [b] + ([t] + Codes(i)), d * p', [b'] + ([t'] + Codes(i')));
    LexCons(b, [t] + Codes(i), b', [t'] + Codes(i'));
    LexCons(t, Codes(i), t', Codes(i'));
  }

  function BookClauses(direction: int, c: BookCursor): seq<Clause> {
    [ Clause([if direction == 1 then Above(c.p) else Below(c.p), Any, Any], None),
      Clause([Equals(c.p), Above(c.b), Any], None),
      Clause([Equals(c.p), Equals(c.b), Above(c.t)], None),
      Clause([Equals(c.p), Equals(c.b), Equals(c.t)], Some(c.i)) ]
  }

  // The four alternatives together say: strictly after the cursor's row in the book.
  lemma BookClausesMeanPast(q: BookQuery, c: BookCursor, r: OrderRow)
    ensures MatchesAny(BookClauses(PriceDirection(q), c), [r.price, r.block, r.tx], r.id)
      <==> IsPast(BookKey(q)(r), BookPlace(q, Some(c)))
  {
    var clauses := BookClauses(PriceDirection(q), c);
    var fields := [r.price, r.block, r.tx];
    CompareBookFields(PriceDirection(q), c.p, c.b, c.t, c.i, r.price, r.block, r.tx, r.id);
    var pastPrice := if PriceDirection(q) == 1 then Above(c.p) else Below(c.p);
    MatchesThree(pastPrice, Any, Any, None, r.price, r.block, r.tx, r.id);
    MatchesThree(Equals(c.p), Above(c.b), Any, None, r.price, r.block, r.tx, r.id);
    MatchesThree(Equals(c.p), Equals(c.b), Above(c.t), None, r.price, r.block, r.tx, r.id);
    MatchesThree(Equals(c.p), Equals(c.b), Equals(c.t), Some(c.i), r.price, r.block, r.tx, r.id);
    assert MatchesAny(clauses, fields, r.id) <==>
      (Matches(clauses[0], fields, r.id) || Matches(clauses[1], fields, r.id)
       || Matches(clauses[2], fields, r.id) || Matches(clauses[3], fields, r.id));
  }

  method OrderBook(orders: seq<OrderRow>, q: BookQuery, cursor: Option<BookCursor>)
    returns (items: seq<OrderRow>, next: Option<BookCursor>)
    requires q.limit >= 1
    ensures Page(items, BookPlace(q, next)) == PageOf(BookListing(q, orders), BookKey(q), BookPlace(q, cursor), q.limit)
  {
    var direction := if q.direction == Some(Bid) then -1 else 1;
    var filter := BookFilter(Live, None, None, None);
    if q.asset.Some? {
      filter := filter.(asset := q.asset);
    }
    if q.direction.Some? {
      filter := filter.(direction := q.direction);
    }
    if cursor.Some? {
      filter := filter.(alternatives := Some(BookClauses(direction, cursor.value)));
    }
    var rows := Found(orders, BookTest(filter), BookOrder(direction), q.limit);
    items := FirstRows(rows, q.limit);
    next := None;
    if |rows| > q.limit {
      var last := items[|items| - 1];
      next := Some(BookCursor(last.price, last.block, last.tx, last.id));
    }
    BookFinds(orders, q, cursor, filter);
  }

  lemma BookOrderIsKeyOrder(q: BookQuery)
    ensures forall x, y :: BookOrder(PriceDirection(q))(x, y) == Lex(BookKey(q)(x), BookKey(q)(y))
  {
    forall x, y
      ensures BookOrder(PriceDirection(q))(x, y) == Lex(BookKey(q)(x), BookKey(q)(y))
    {
      CompareBookFields(PriceDirection(q), x.price, x.block, x.tx, x.id, y.price, y.block, y.tx, y.id);
    }
  }

  lemma BookTestSplits(q: BookQuery, cursor: Option<BookCursor>, filter: BookFilter)
    requires filter == BookFilter(Live, q.asset, q.direction,
                                  if cursor.Some? then Some(BookClauses(PriceDirection(q), cursor.value)) else None)
    ensures forall r :: BookTest(filter)(r) <==> Listed(q)(r) && IsPast(BookKey(q)(r), BookPlace(q, cursor))
  {
    forall r
      ensures BookTest(filter)(r) <==> Listed(q)(r) && IsPast(BookKey(q)(r), BookPlace(q, cursor))
    {
      if cursor.Some? {
        BookClausesMeanPast(q, cursor.value, r);
      }
    }
  }

  lemma BookFinds(orders: seq<OrderRow>, q: BookQuery, cursor: Option<BookCursor>, filter: BookFilter)
    requires q.limit >= 1
    requires filter == BookFilter(Live, q.asset, q.direction,
                                  if cursor.Some? then Some(BookClauses(PriceDirection(q), cursor.value)) else None)
    ensures IsPage(PageOf(BookListing(q, orders), BookKey(q), BookPlace(q, cursor), q.limit),
                   Found(orders, BookTest(filter), BookOrder(PriceDirection(q)), q.limit), BookKey(q), q.limit)
  {
    BookTestSplits(q, cursor, filter);
    BookOrderIsKeyOrder(q);
    FoundIsPage(orders, BookTest(filter), Listed(q), BookOrder(PriceDirection(q)), BookKey(q), BookPlace(q, cursor),
                q.limit);
  }

  // ---- /orders ----

  datatype OrdersQuery = OrdersQuery(
    maker: Option<string>, asset: Option<string>, direction: Option<Direction>, status: Option<Status>, limit: nat)

  datatype OrdersCursor = OrdersCursor(c: int, i: string)

  datatype OrdersFilter = OrdersFilter(
    maker: Option<string>, asset: Option<string>, direction: Option<Direction>, status: Option<Status>,
    alternatives: Option<seq<Clause>>)

  predicate OrdersMatch(f: OrdersFilter, r: OrderRow) {
    && (f.maker.Some? ==> r.maker == f.maker.value)
    && (f.asset.Some? ==> r.asset == f.asset.value)
    && (f.direction.Some? ==> r.direction == f.direction.value)
    && (f.status.Some? ==> r.status == f.status.value)
    && (f.alternatives.Some? ==> MatchesAny(f.alternatives.value, [r.createdAt], r.id))
  }

  predicate InOrders(q: OrdersQuery, r: OrderRow) {
    && (q.maker.Some? ==> r.maker == q.maker.value)
    && (q.asset.Some? ==> r.asset == q.asset.value)
    && (q.direction.Some? ==> r.direction == q.direction.value)
    && (q.status.Some? ==> r.status == q.status.value)
  }

  // Newest first, ties by id; blocks and creation times alike.
  function CompareNewest(m: int, i: string, n: int, j: string): int {
    if m != n then n - m else CompareIds(i, j)
  }

  function NewestFields(n: int, i: string): Key {
    [-n] + Codes(i)
  }

  function NewestClauses(n: int, i: string): seq<Clause> {
    [Clause([Below(n)], None), Clause([Equals(n)], Some(i))]
  }

  // The two alternatives together say: strictly older, or as old with a greater id.
  lemma NewestClausesMeanPast(n: int, i: string, m: int, j: string)
    ensures MatchesAny(NewestClauses(n, i), [m], j) <==> IsPast(NewestFields(m, j), Some(NewestFields(n, i)))
  {
    LexCons(-n, Codes(i), -m, Codes(j));
    MatchesOne(Below(n), None, m, j);
    MatchesOne(Equals(n), Some(i), m, j);
    var clauses := NewestClauses(n, i);
    assert MatchesAny(clauses, [m], j) <==> Matches(clauses[0], [m], j) || Matches(clauses[1], [m], j);
  }

  function OrdersTest(f: OrdersFilter): OrderRow -> bool {
    (r: OrderRow) => OrdersMatch(f, r)
  }

  function OrdersOrder(): Comparator<OrderRow> {
    (x: OrderRow, y: OrderRow) => CompareNewest(x.createdAt, x.id, y.createdAt, y.id)
  }

  function ListedOrders(q: OrdersQuery): OrderRow -> bool {
    (r: OrderRow) => InOrders(q, r)
  }

  function OrdersListing(q: OrdersQuery, orders: seq<OrderRow>): seq<OrderRow> {
    Filter(orders, ListedOrders(q))
  }

  function OrdersKey(): OrderRow -> Key {
    (r: OrderRow) => NewestFields(r.createdAt, r.id)
  }

  function OrdersPlace(c: Option<OrdersCursor>): Option<Key> {
    if c.None? then None else Some(NewestFields(c.value.c, c.value.i))
  }

  method Orders(orders: seq<OrderRow>, q: OrdersQuery, cursor: Option<OrdersCursor>)
    returns (items: seq<OrderRow>, next: Option<OrdersCursor>)
    requires q.limit >= 1
    ensures Page(items, OrdersPlace(next)) ==
      PageOf(OrdersListing(q, orders), OrdersKey(), OrdersPlace(cursor), q.limit)
  {
    var filter := OrdersFilter(None, None, None, None, None);
    if q.maker.Some? {
      filter := filter.(maker := q.maker);
    }
    if q.asset.Some? {
      filter := filter.(asset := q.asset);
    }
    if q.direction.Some? {
      filter := filter.(direction := q.direction);
    }
    if q.status.Some? {
      filter := filter.(status := q.status);
    }
    if cursor.Some? {
      filter := filter.(alternatives := Some(NewestClauses(cursor.value.c, cursor.value.i)));
    }
    var rows := Found(orders, OrdersTest(filter), OrdersOrder(), q.limit);
    items := FirstRows(rows, q.limit);
    next := None;
    if |rows| > q.limit {
      var last := items[|items| - 1];
      next := Some(OrdersCursor(last.createdAt, last.id));
    }
    OrdersFinds(orders, q, cursor, filter);
  }

  lemma OrdersOrderIsKeyOrder()
    ensures forall x, y :: OrdersOrder()(x, y) == Lex(OrdersKey()(x), OrdersKey()(y))
  {
    forall x: OrderRow, y: OrderRow
      ensures OrdersOrder()(x, y) == Lex(OrdersKey()(x), OrdersKey()(y))
    {
      LexCons(-x.createdAt, Codes(x.id), -y.createdAt, Codes(y.id));
    }
  }

  lemma OrdersTestSplits(q: OrdersQuery, cursor: Option<OrdersCursor>, filter: OrdersFilter)
    requires filter == OrdersFilter(q.maker, q.asset, q.direction, q.status,
                                    if cursor.Some? then Some(NewestClauses(cursor.value.c, cursor.value.i)) else None)
    ensures forall r :: OrdersTest(filter)(r) <==> ListedOrders(q)(r) && IsPast(OrdersKey()(r), OrdersPlace(cursor))
  {
    forall r
      ensures OrdersTest(filter)(r) <==> ListedOrders(q)(r) && IsPast(OrdersKey()(r), OrdersPlace(cursor))
    {
      if cursor.Some? {
        NewestClausesMeanPast(cursor.value.c, cursor.value.i, r.createdAt, r.id);
      }
    }
  }

  lemma OrdersFinds(orders: seq<OrderRow>, q: OrdersQuery, cursor: Option<OrdersCursor>, filter: OrdersFilter)
    requires q.limit >= 1
    requires filter == OrdersFilter(q.maker, q.asset, q.direction, q.status,
                                    if cursor.Some? then Some(NewestClauses(cursor.value.c, cursor.value.i)) else None)
    ensures IsPage(PageOf(OrdersListing(q, orders), OrdersKey(), OrdersPlace(cursor), q.limit),
                   Found(orders, OrdersTest(filter), OrdersOrder(), q.limit), OrdersKey(), q.limit)
  {
    OrdersTestSplits(q, cursor, filter);
    OrdersOrderIsKeyOrder();
    FoundIsPage(orders, OrdersTest(filter), ListedOrders(q), OrdersOrder(), OrdersKey(), OrdersPlace(cursor), q.limit);
  }

  // ---- /trades ----

  datatype TradesQuery = TradesQuery(asset: Option<string>, limit: nat)

  datatype TradesCursor = TradesCursor(b: int, i: string)

  datatype TradesFilter = TradesFilter(asset: Option<string>, alternatives: Option<seq<Clause>>)

  predicate TradesMatch(f: TradesFilter, r: TradeRow) {
    && !r.reverted
    && (f.asset.Some? ==> r.asset == f.asset.value)
    && (f.alternatives.Some? ==> MatchesAny(f.alternatives.value, [r.block], r.id))
  }

  predicate InTrades(q: TradesQuery, r: TradeRow) {
    !r.reverted && (q.asset.Some? ==> r.asset == q.asset.value)
  }

  function TradesTest(f: TradesFilter): TradeRow -> bool {
    (r: TradeRow) => TradesMatch(f, r)
  }

  function TradesOrder(): Comparator<TradeRow> {
    (x: TradeRow, y: TradeRow) => CompareNewest(x.block, x.id, y.block, y.id)
  }

  function ListedTrades(q: TradesQuery): TradeRow -> bool {
    (r: TradeRow) => InTrades(q, r)
  }

  function TradesListing(q: TradesQuery, trades: seq<TradeRow>): seq<TradeRow> {
    Filter(trades, ListedTrades(q))
  }

  function TradesKey(): TradeRow -> Key {
    (r: TradeRow) => NewestFields(r.block, r.id)
  }

  function TradesPlace(c: Option<TradesCursor>): Option<Key> {
    if c.None? then None else Some(NewestFields(c.value.b, c.value.i))
  }

  method Trades(trades: seq<TradeRow>, q: TradesQuery, cursor: Option<TradesCursor>)
    returns (items: seq<TradeRow>, next: Option<TradesCursor>)
    requires q.limit >= 1
    ensures Page(items, TradesPlace(next)) ==
      PageOf(TradesListing(q, trades), TradesKey(), TradesPlace(cursor), q.limit)
  {
    var filter := TradesFilter(None, None);
    if q.asset.Some? {
      filter := filter.(asset := q.asset);
    }
    if cursor.Some? {
      filter := filter.(alternatives := Some(NewestClauses(cursor.value.b, cursor.value.i)));
    }
    var rows := Found(trades, TradesTest(filter), TradesOrder(), q.limit);
    items := FirstRows(rows, q.limit);
    next := None;
    if |rows| > q.limit {
      var last := items[|items| - 1];
      next := Some(TradesCursor(last.block, last.id));
    }
    TradesFinds(trades, q, cursor, filter);
  }

  lemma TradesOrderIsKeyOrder()
    ensures forall x, y :: TradesOrder()(x, y) == Lex(TradesKey()(x), TradesKey()(y))
  {
    forall x: TradeRow, y: TradeRow
      ensures TradesOrder()(x, y) == Lex(TradesKey()(x), TradesKey()(y))
    {
      LexCons(-x.block, Codes(x.id), -y.block, Codes(y.id));
    }
  }

  lemma TradesTestSplits(q: TradesQuery, cursor: Option<TradesCursor>, filter: TradesFilter)
    requires filter ==
      TradesFilter(q.asset, if cursor.Some? then Some(NewestClauses(cursor.value.b, cursor.value.i)) else None)
    ensures forall r :: TradesTest(filter)(r) <==> ListedTrades(q)(r) && IsPast(TradesKey()(r), TradesPlace(cursor))
  {
    forall r
      ensures TradesTest(filter)(r) <==> ListedTrades(q)(r) && IsPast(TradesKey()(r), TradesPlace(cursor))
    {
      if cursor.Some? {
        NewestClausesMeanPast(cursor.value.b, cursor.value.i, r.block, r.id);
      }
    }
  }

  lemma TradesFinds(trades: seq<TradeRow>, q: TradesQuery, cursor: Option<TradesCursor>, filter: TradesFilter)
    requires q.limit >= 1
    requires filter ==
      TradesFilter(q.asset, if cursor.Some? then Some(NewestClauses(cursor.value.b, cursor.value.i)) else None)
    ensures IsPage(PageOf(TradesListing(q, trades), TradesKey(), TradesPlace(cursor), q.limit),
                   Found(trades, TradesTest(filter), TradesOrder(), q.limit), TradesKey(), q.limit)
  {
    TradesTestSplits(q, cursor, filter);
    TradesOrderIsKeyOrder();
    FoundIsPage(trades, TradesTest(filter), ListedTrades(q), TradesOrder(), TradesKey(), TradesPlace(cursor), q.limit);
  }

  // ---- Walks over changing collections ----

  function Seen<R(!new)>(states: seq<seq<R>>, listed: R -> bool): (seen: seq<seq<R>>)
    ensures |seen| == |states|
    ensures forall k :: 0 <= k < |states| ==> seen[k] == Filter(states[k], listed)
  {
    seq(|states|, k requires 0 <= k < |states| => Filter(states[k], listed))
  }

  lemma SeenDistinct<R(!new)>(states: seq<seq<R>>, listed: R -> bool, key: R -> Key)
    requires AllDistinct(states, key)
    ensures AllDistinct(Seen(states, listed), key)
  {
    forall k | 0 <= k < |states|
      ensures DistinctKeys(Seen(states, listed)[k], key)
    {
      FilterKeepsDistinct(states[k], key, listed);
    }
  }

  // The pages a client gets by following the cursor: the k-th request meets the k-th state of the collection.
  function Pages<R(!new)>(states: seq<seq<R>>, listed: R -> bool, key: R -> Key, limit: nat): seq<Page<R>>
    requires limit >= 1
  {
    Follow(Seen(states, listed), key, None, limit)
  }

  // Rows come in strictly rising sequence, so none comes twice; only listed rows come; and once the walk
  // has ended, every row that was there unchanged and listed at each request has come.
  ghost predicate ReturnsOnce<R(!new)>(states: seq<seq<R>>, listed: R -> bool, order: Comparator<R>,
                                       pages: seq<Page<R>>)
  {
    var items := Items(pages);
    && (forall i, j :: 0 <= i < j < |items| ==> order(items[i], items[j]) < 0)
    && (forall r :: r in items ==> listed(r) && exists k :: 0 <= k < |states| && r in states[k])
    && (Ended(pages) ==> forall r ::
          (listed(r) && (forall k :: 0 <= k < |states| && k < |pages| ==> r in states[k])) ==> r in items)
  }

  lemma WalkReturnsOnce<R(!new)>(states: seq<seq<R>>, listed: R -> bool, key: R -> Key, order: Comparator<R>,
                                 limit: nat)
    requires limit >= 1 && AllDistinct(states, key)
    requires forall x, y :: order(x, y) == Lex(key(x), key(y))
    ensures ReturnsOnce(states, listed, order, Pages(states, listed, key, limit))
  {
    var pages := Pages(states, listed, key, limit);
    SeenDistinct(states, listed, key);
    FollowAscends(Seen(states, listed), key, None, limit);
    forall r | r in Items(pages)
      ensures listed(r) && exists k :: 0 <= k < |states| && r in states[k]
    {
      var k :| 0 <= k < |states| && r in Seen(states, listed)[k];
      FilterMembers(states[k], listed);
    }
    if Ended(pages) {
      forall r | listed(r) && (forall k :: 0 <= k < |states| && k < |pages| ==> r in states[k])
        ensures r in Items(pages)
      {
        StaysReturned(states, listed, key, limit, r);
      }
    }
  }

  lemma StaysReturned<R(!new)>(states: seq<seq<R>>, listed: R -> bool, key: R -> Key, limit: nat, r: R)
    requires limit >= 1 && AllDistinct(states, key)
    requires Ended(Pages(states, listed, key, limit)) && listed(r)
    requires forall k :: 0 <= k < |states| && k < |Pages(states, listed, key, limit)| ==> r in states[k]
    ensures r in Items(Pages(states, listed, key, limit))
  {
    SeenDistinct(states, listed, key);
    forall k | 0 <= k < |states| && r in states[k]
      ensures r in Seen(states, listed)[k]
    {
      FilterMembers(states[k], listed);
    }
    FollowReturns(Seen(states, listed), key, None, limit, r);
  }

  // A walk has ended when there were more requests than the keys ever listed could fill pages, and on
  // a collection that does not change its pages are the whole listing.
  lemma WalkEnds<R(!new)>(states: seq<seq<R>>, listed: R -> bool, key: R -> Key, limit: nat, keys: set<Key>)
    requires limit >= 1 && AllDistinct(states, key) && |states| * limit > |keys|
    requires forall k :: 0 <= k < |states| ==> forall r :: r in states[k] && listed(r) ==> key(r) in keys
    ensures Ended(Pages(states, listed, key, limit))
  {
    var seen := Seen(states, listed);
    SeenDistinct(states, listed, key);
    forall k | 0 <= k < |states|
      ensures forall r :: r in Seen(states, listed)[k] ==> key(r) in keys
    {
      FilterMembers(states[k], listed);
    }
    FollowEnds(seen, key, limit, keys);
  }

  lemma WalkListsAll<R(!new)>(rows: seq<R>, listed: R -> bool, key: R -> Key, order: Comparator<R>, limit: nat,
                              requests: nat)
    requires limit >= 1 && DistinctKeys(rows, key) && requests * limit > |Filter(rows, listed)|
    requires forall x, y :: order(x, y) == Lex(key(x), key(y))
    ensures var pages := Pages(seq(requests, _ => rows), listed, key, limit);
      Ended(pages) && Items(pages) == Sort(order, Filter(rows, listed))
  {
    FilterKeepsDistinct(rows, key, listed);
    FollowListsAll(Filter(rows, listed), key, limit, requests);
    SortAgrees(order, ByKey(key), Filter(rows, listed));
    var states := seq(requests, _ => rows);
    assert Seen(states, listed) == seq(requests, _ => Filter(rows, listed));
  }

  ghost predicate UniqueOrders(rows: seq<OrderRow>) {
    forall i, j :: 0 <= i < j < |rows| ==> rows[i].id != rows[j].id
  }

  ghost predicate UniqueTrades(rows: seq<TradeRow>) {
    forall i, j :: 0 <= i < j < |rows| ==> rows[i].id != rows[j].id
  }

  lemma BookKeyHoldsId(q: BookQuery, x: OrderRow, y: OrderRow)
    ensures BookKey(q)(x) == BookKey(q)(y) ==> x.id == y.id
  {
    CompareBookFields(PriceDirection(q), x.price, x.block, x.tx, x.id, y.price, y.block, y.tx, y.id);
    LexZero(BookKey(q)(x), BookKey(q)(y));
    LexZero(Codes(x.id), Codes(y.id));
    if Codes(x.id) == Codes(y.id) {
      CodesInjective(x.id, y.id);
    }
  }

  lemma NewestFieldsHoldId(m: int, i: string, n: int, j: string)
    ensures NewestFields(m, i) == NewestFields(n, j) ==> i == j
  {
    LexCons(-m, Codes(i), -n, Codes(j));
    LexZero(NewestFields(m, i), NewestFields(n, j));
    LexZero(Codes(i), Codes(j));
    if Codes(i) == Codes(j) {
      CodesInjective(i, j);
    }
  }

  lemma BookKeysDistinct(q: BookQuery, rows: seq<OrderRow>)
    requires UniqueOrders(rows)
    ensures DistinctKeys(rows, BookKey(q))
  {
    forall i, j | 0 <= i < j < |rows|
      ensures BookKey(q)(rows[i]) != BookKey(q)(rows[j])
    {
      BookKeyHoldsId(q, rows[i], rows[j]);
    }
  }

  lemma OrdersKeysDistinct(rows: seq<OrderRow>)
    requires UniqueOrders(rows)
    ensures DistinctKeys(rows, OrdersKey())
  {
    forall i, j | 0 <= i < j < |rows|
      ensures OrdersKey()(rows[i]) != OrdersKey()(rows[j])
    {
      NewestFieldsHoldId(rows[i].createdAt, rows[i].id, rows[j].createdAt, rows[j].id);
    }
  }

  lemma TradesKeysDistinct(rows: seq<TradeRow>)
    requires UniqueTrades(rows)
    ensures DistinctKeys(rows, TradesKey())
  {
    forall i, j | 0 <= i < j < |rows|
      ensures TradesKey()(rows[i]) != TradesKey()(rows[j])
    {
      NewestFieldsHoldId(rows[i].block, rows[i].id, rows[j].block, rows[j].id);
    }
  }

  // ---- What the listings show, field by field ----

  // x comes before y in the book: bids from the highest price down, asks and undirected books from the lowest
  // up, equal prices in the sequence of the chain, ties by id.
  predicate BookBefore(q: BookQuery, x: OrderRow, y: OrderRow) {
    || (q.direction == Some(Bid) && x.price > y.price)
    || (q.direction != Some(Bid) && x.price < y.price)
    || (x.price == y.price
        && (x.block < y.block
            || (x.block == y.block && (x.tx < y.tx || (x.tx == y.tx && CompareIds(x.id, y.id) < 0)))))
  }

  // Live orders of the asset and the side asked for.
  predicate OnBook(q: BookQuery, r: OrderRow) {
    r.status == Live && (q.asset.None? || q.asset.value == r.asset)
    && (q.direction.None? || q.direction.value == r.direction)
  }

  predicate NewestBefore(m: int, i: string, n: int, j: string) {
    m > n || (m == n && CompareIds(i, j) < 0)
  }

  predicate OnOrders(q: OrdersQuery, r: OrderRow) {
    (q.maker.None? || q.maker.value == r.maker) && (q.asset.None? || q.asset.value == r.asset)
    && (q.direction.None? || q.direction.value == r.direction) && (q.status.None? || q.status.value == r.status)
  }

  predicate OnTrades(q: TradesQuery, r: TradeRow) {
    !r.reverted && (q.asset.None? || q.asset.value == r.asset)
  }

  lemma BookFieldsMean(q: BookQuery, x: OrderRow, y: OrderRow)
    ensures Lex(BookKey(q)(x), BookKey(q)(y)) < 0 <==> BookBefore(q, x, y)
    ensures Listed(q)(x) <==> OnBook(q, x)
  {
    CompareBookFields(PriceDirection(q), x.price, x.block, x.tx, x.id, y.price, y.block, y.tx, y.id);
  }

  lemma NewestFieldsMean(m: int, i: string, n: int, j: string)
    ensures Lex(NewestFields(m, i), NewestFields(n, j)) < 0 <==> NewestBefore(m, i, n, j)
  {
    LexCons(-m, Codes(i), -n, Codes(j));
  }

  // A page without a cursor holds rows of the collection in this order, at most the limit; whatever else is
  // listed comes after every row of the page, and exactly then the page is full and has a cursor.
  ghost predicate FirstPage<R(!new)>(rows: seq<R>, listed: R -> bool, before: (R, R) -> bool, limit: nat,
                                     page: Page<R>)
  {
    && |page.items| <= limit && (forall i, j :: 0 <= i < j < |page.items| ==> before(page.items[i], page.items[j]))
    && (forall r :: r in page.items ==> r in rows && listed(r))
    && (forall r :: r in rows && listed(r) && r !in page.items ==>
          |page.items| == limit && page.next.Some? && forall x :: x in page.items ==> before(x, r))
    && (page.next.Some? ==> exists r :: r in rows && listed(r) && r !in page.items)
  }

  lemma BeyondPage<R(!new)>(page: Page<R>, key: R -> Key, limit: nat, x: R, r: R)
    requires limit >= 1 && |page.items| == limit && Ascending(page.items, key) && x in page.items
    requires page.next == Some(key(page.items[limit - 1])) && IsPast(key(r), page.next)
    ensures Lex(key(x), key(r)) < 0
  {
    var i :| 0 <= i < |page.items| && page.items[i] == x;
    var last := page.items[limit - 1];
    LexZero(key(last), key(last));
    LexTransitive(key(x), key(last), key(r));
  }

  lemma PageIsFirst<R(!new)>(rows: seq<R>, kept: R -> bool, listed: R -> bool, key: R -> Key,
                             before: (R, R) -> bool, limit: nat)
    requires limit >= 1 && DistinctKeys(rows, key)
    requires forall x, y :: before(x, y) <==> Lex(key(x), key(y)) < 0
    requires forall r :: kept(r) <==> listed(r)
    ensures FirstPage(rows, listed, before, limit, PageOf(Filter(rows, kept), key, None, limit))
  {
    var page := PageOf(Filter(rows, kept), key, None, limit);
    FilterKeepsDistinct(rows, key, kept);
    FilterMembers(rows, kept);
    PageMeaning(Filter(rows, kept), key, None, limit);
    forall r, x | r in rows && listed(r) && r !in page.items && x in page.items
      ensures before(x, r)
    {
      BeyondPage(page, key, limit, x, r);
    }
  }

  // The first page of the book: the best orders on it, best first.
  lemma BookIsBestFirst(q: BookQuery, orders: seq<OrderRow>)
    requires q.limit >= 1 && UniqueOrders(orders)
    ensures FirstPage(orders, (r: OrderRow) => OnBook(q, r), (x: OrderRow, y: OrderRow) => BookBefore(q, x, y),
                      q.limit, PageOf(BookListing(q, orders), BookKey(q), None, q.limit))
  {
    var before := (x: OrderRow, y: OrderRow) => BookBefore(q, x, y);
    forall x, y
      ensures before(x, y) <==> Lex(BookKey(q)(x), BookKey(q)(y)) < 0
    {
      BookFieldsMean(q, x, y);
    }
    BookKeysDistinct(q, orders);
    PageIsFirst(orders, Listed(q), (r: OrderRow) => OnBook(q, r), BookKey(q), before, q.limit);
  }

  // The first page of a maker's or market's orders: the newest, newest first.
  lemma OrdersAreNewestFirst(q: OrdersQuery, orders: seq<OrderRow>)
    requires q.limit >= 1 && UniqueOrders(orders)
    ensures FirstPage(orders, (r: OrderRow) => OnOrders(q, r),
                      (x: OrderRow, y: OrderRow) => NewestBefore(x.createdAt, x.id, y.createdAt, y.id),
                      q.limit, PageOf(OrdersListing(q, orders), OrdersKey(), None, q.limit))
  {
    var before := (x: OrderRow, y: OrderRow) => NewestBefore(x.createdAt, x.id, y.createdAt, y.id);
    forall x, y
      ensures before(x, y) <==> Lex(OrdersKey()(x), OrdersKey()(y)) < 0
    {
      NewestFieldsMean(x.createdAt, x.id, y.createdAt, y.id);
    }
    OrdersKeysDistinct(orders);
    PageIsFirst(orders, ListedOrders(q), (r: OrderRow) => OnOrders(q, r), OrdersKey(), before, q.limit);
  }

  // The first page of the trades that are not reverted: the newest, newest first.
  lemma TradesAreNewestFirst(q: TradesQuery, trades: seq<TradeRow>)
    requires q.limit >= 1 && UniqueTrades(trades)
    ensures FirstPage(trades, (r: TradeRow) => OnTrades(q, r),
                      (x: TradeRow, y: TradeRow) => NewestBefore(x.block, x.id, y.block, y.id),
                      q.limit, PageOf(TradesListing(q, trades), TradesKey(), None, q.limit))
  {
    var before := (x: TradeRow, y: TradeRow) => NewestBefore(x.block, x.id, y.block, y.id);
    forall x, y
      ensures before(x, y) <==> Lex(TradesKey()(x), TradesKey()(y)) < 0
    {
      NewestFieldsMean(x.block, x.id, y.block, y.id);
    }
    TradesKeysDistinct(trades);
    PageIsFirst(trades, ListedTrades(q), (r: TradeRow) => OnTrades(q, r), TradesKey(), before, q.limit);
  }

  lemma BookWalk(q: BookQuery, states: seq<seq<OrderRow>>, keys: set<Key>)
    requires q.limit >= 1 && forall k :: 0 <= k < |states| ==> UniqueOrders(states[k])
    ensures var pages := Pages(states, Listed(q), BookKey(q), q.limit);
      && ReturnsOnce(states, Listed(q), BookOrder(PriceDirection(q)), pages)
      && (|states| * q.limit > |keys|
          && (forall k :: 0 <= k < |states| ==> forall r :: r in states[k] && InBook(q, r) ==> BookKey(q)(r) in keys)
          ==> Ended(pages))
  {
    forall k | 0 <= k < |states|
      ensures DistinctKeys(states[k], BookKey(q))
    {
      BookKeysDistinct(q, states[k]);
    }
    BookOrderIsKeyOrder(q);
    WalkReturnsOnce(states, Listed(q), BookKey(q), BookOrder(PriceDirection(q)), q.limit);
    if |states| * q.limit > |keys|
       && (forall k :: 0 <= k < |states| ==> forall r :: r in states[k] && InBook(q, r) ==> BookKey(q)(r) in keys) {
      WalkEnds(states, Listed(q), BookKey(q), q.limit, keys);
    }
  }

  lemma OrdersWalk(q: OrdersQuery, states: seq<seq<OrderRow>>, keys: set<Key>)
    requires q.limit >= 1 && forall k :: 0 <= k < |states| ==> UniqueOrders(states[k])
    ensures var pages := Pages(states, ListedOrders(q), OrdersKey(), q.limit);
      && ReturnsOnce(states, ListedOrders(q), OrdersOrder(), pages)
      && (|states| * q.limit > |keys|
          && (forall k :: 0 <= k < |states| ==> forall r :: r in states[k] && InOrders(q, r) ==> OrdersKey()(r) in keys)
          ==> Ended(pages))
  {
    forall k | 0 <= k < |states|
      ensures DistinctKeys(states[k], OrdersKey())
    {
      OrdersKeysDistinct(states[k]);
    }
    OrdersOrderIsKeyOrder();
    WalkReturnsOnce(states, ListedOrders(q), OrdersKey(), OrdersOrder(), q.limit);
    if |states| * q.limit > |keys|
       && (forall k :: 0 <= k < |states| ==> forall r :: r in states[k] && InOrders(q, r) ==> OrdersKey()(r) in keys) {
      WalkEnds(states, ListedOrders(q), OrdersKey(), q.limit, keys);
    }
  }

  lemma TradesWalk(q: TradesQuery, states: seq<seq<TradeRow>>, keys: set<Key>)
    requires q.limit >= 1 && forall k :: 0 <= k < |states| ==> UniqueTrades(states[k])
    ensures var pages := Pages(states, ListedTrades(q), TradesKey(), q.limit);
      && ReturnsOnce(states, ListedTrades(q), TradesOrder(), pages)
      && (|states| * q.limit > |keys|
          && (forall k :: 0 <= k < |states| ==> forall r :: r in states[k] && InTrades(q, r) ==> TradesKey()(r) in keys)
          ==> Ended(pages))
  {
    forall k | 0 <= k < |states|
      ensures DistinctKeys(states[k], TradesKey())
    {
      TradesKeysDistinct(states[k]);
    }
    TradesOrderIsKeyOrder();
    WalkReturnsOnce(states, ListedTrades(q), TradesKey(), TradesOrder(), q.limit);
    if |states| * q.limit > |keys|
       && (forall k :: 0 <= k < |states| ==> forall r :: r in states[k] && InTrades(q, r) ==> TradesKey()(r) in keys) {
      WalkEnds(states, ListedTrades(q), TradesKey(), q.limit, keys);
    }
  }

  // On collections that do not change, all three listings come whole and sorted, whatever the limits.
  lemma ListingsComeWhole(orders: seq<OrderRow>, trades: seq<TradeRow>, b: BookQuery, o: OrdersQuery, t: TradesQuery,
                          requests: nat)
    requires UniqueOrders(orders) && UniqueTrades(trades) && b.limit >= 1 && o.limit >= 1 && t.limit >= 1
    requires requests * b.limit > |BookListing(b, orders)| && requests * o.limit > |OrdersListing(o, orders)|
    requires requests * t.limit > |TradesListing(t, trades)|
    ensures Items(Pages(seq(requests, _ => orders), Listed(b), BookKey(b), b.limit))
         == Sort(BookOrder(PriceDirection(b)), BookListing(b, orders))
    ensures Items(Pages(seq(requests, _ => orders), ListedOrders(o), OrdersKey(), o.limit))
         == Sort(OrdersOrder(), OrdersListing(o, orders))
    ensures Items(Pages(seq(requests, _ => trades), ListedTrades(t), TradesKey(), t.limit))
         == Sort(TradesOrder(), TradesListing(t, trades))
  {
    BookKeysDistinct(b, orders);
    OrdersKeysDistinct(orders);
    TradesKeysDistinct(trades);
    BookOrderIsKeyOrder(b);
    OrdersOrderIsKeyOrder();
    TradesOrderIsKeyOrder();
    WalkListsAll(orders, Listed(b), BookKey(b), BookOrder(PriceDirection(b)), b.limit, requests);
    WalkListsAll(orders, ListedOrders(o), OrdersKey(), OrdersOrder(), o.limit, requests);
    WalkListsAll(trades, ListedTrades(t), TradesKey(), TradesOrder(), t.limit, requests);
  }

  // Over a walk, whatever happens to the collections in between: prices on a book of bids never rise, on asks
  // and undirected books they never fall, equal prices come in the sequence of the chain, and only live orders
  // that were asked for come.
  lemma BookWalkIsBestFirst(q: BookQuery, states: seq<seq<OrderRow>>, i: nat, j: nat)
    requires q.limit >= 1 && forall k :: 0 <= k < |states| ==> UniqueOrders(states[k])
    requires i < j < |Items(Pages(states, Listed(q), BookKey(q), q.limit))|
    ensures var items := Items(Pages(states, Listed(q), BookKey(q), q.limit));
      BookBefore(q, items[i], items[j]) && OnBook(q, items[i]) && OnBook(q, items[j])
  {
    var items := Items(Pages(states, Listed(q), BookKey(q), q.limit));
    BookWalk(q, states, {});
    BookOrderIsKeyOrder(q);
    assert items[i] in items && items[j] in items;
    assert BookOrder(PriceDirection(q))(items[i], items[j]) < 0;
    BookFieldsMean(q, items[i], items[j]);
    BookFieldsMean(q, items[j], items[i]);
  }

  lemma OrdersWalkIsNewestFirst(q: OrdersQuery, states: seq<seq<OrderRow>>, i: nat, j: nat)
    requires q.limit >= 1 && forall k :: 0 <= k < |states| ==> UniqueOrders(states[k])
    requires i < j < |Items(Pages(states, ListedOrders(q), OrdersKey(), q.limit))|
    ensures var items := Items(Pages(states, ListedOrders(q), OrdersKey(), q.limit));
      NewestBefore(items[i].createdAt, items[i].id, items[j].createdAt, items[j].id)
      && OnOrders(q, items[i]) && OnOrders(q, items[j])
  {
    var items := Items(Pages(states, ListedOrders(q), OrdersKey(), q.limit));
    OrdersWalk(q, states, {});
    OrdersOrderIsKeyOrder();
    assert items[i] in items && items[j] in items;
    assert OrdersOrder()(items[i], items[j]) < 0;
    NewestFieldsMean(items[i].createdAt, items[i].id, items[j].createdAt, items[j].id);
  }

  lemma TradesWalkIsNewestFirst(q: TradesQuery, states: seq<seq<TradeRow>>, i: nat, j: nat)
    requires q.limit >= 1 && forall k :: 0 <= k < |states| ==> UniqueTrades(states[k])
    requires i < j < |Items(Pages(states, ListedTrades(q), TradesKey(), q.limit))|
    ensures var items := Items(Pages(states, ListedTrades(q), TradesKey(), q.limit));
      NewestBefore(items[i].block, items[i].id, items[j].block, items[j].id)
      && OnTrades(q, items[i]) && OnTrades(q, items[j])
  {
    var items := Items(Pages(states, ListedTrades(q), TradesKey(), q.limit));
    TradesWalk(q, states, {});
    TradesOrderIsKeyOrder();
    assert items[i] in items && items[j] in items;
    assert TradesOrder()(items[i], items[j]) < 0;
    NewestFieldsMean(items[i].block, items[i].id, items[j].block, items[j].id);
  }
}
