// The matching bot's pass over the order book: price-time sorting and the exact-match pairs it proposes.
module Matcher {
  import opened Bytes
  import opened Lists
  import opened OrderArgs
  import opened MatchHealth
  import opened Matching
  import opened StableSort
  import Settlement

  datatype BookOrder = BookOrder(
    id: OrderId, direction: Direction, asset: Hash, amount: nat, price: nat, block: nat, txIndex: nat)

  // ---- Price-time priority ----

  // Asks before bids, best price first, then chain order.
  function Compare(a: BookOrder, b: BookOrder): int {
    if a.direction != b.direction then if a.direction == Ask then -1 else 1
    else
      var delta := if a.direction == Ask then a.price - b.price else b.price - a.price;
      if delta != 0 then if delta < 0 then -1 else 1
      else if a.block != b.block then if a.block < b.block then -1 else 1
      else if a.txIndex != b.txIndex then if a.txIndex < b.txIndex then -1 else 1
      else 0
  }

  lemma CompareIsTotalPreorder()
    ensures TotalPreorder(Compare)
  {
    assert forall a, b :: Compare(a, b) == -Compare(b, a);
  }

  function Book(orders: seq<BookOrder>): seq<BookOrder> {
    Sort(Compare, orders)
  }

  ghost predicate UniqueIds(s: seq<BookOrder>) {
    forall i, j :: 0 <= i < j < |s| ==> s[i].id != s[j].id
  }

  // x stands earlier than y in s.
  ghost predicate Before(s: seq<BookOrder>, x: BookOrder, y: BookOrder) {
    exists i, j :: 0 <= i < j < |s| && s[i] == x && s[j] == y
  }

  lemma UniqueIsMultiset(s: seq<BookOrder>)
    ensures (forall o :: multiset(s)[o] <= 1) <== UniqueIds(s)
    decreases s
  {
    if s != [] && UniqueIds(s) {
      var n := |s| - 1;
      UniqueIsMultiset(s[..n]);
      assert s == s[..n] + [s[n]];
    }
  }

  // Two positions of one multiset never hold the same element twice.
  lemma {:induction false} RepeatCounts(s: seq<BookOrder>, i: nat, j: nat)
    requires i < j < |s| && s[i] == s[j]
    ensures multiset(s)[s[i]] >= 2
  {
    assert s == s[..j] + [s[j]] + s[j + 1..];
    assert s[i] in s[..j];
  }

  // The book holds the same orders, so ids stay unique.
  lemma BookKeepsOrders(orders: seq<BookOrder>)
    requires UniqueIds(orders)
    ensures UniqueIds(Book(orders)) && forall o :: o in Book(orders) <==> o in orders
  {
    SortPermutes(Compare, orders);
    UniqueIsMultiset(orders);
    var s := Book(orders);
    forall i, j | 0 <= i < j < |s|
      ensures s[i].id != s[j].id
    {
      assert s[i] in orders && s[j] in orders;
      if s[i] == s[j] {
        RepeatCounts(s, i, j);
      }
    }
  }

  // ---- Groups of equal terms ----

  type Key = (Hash, nat, nat)

  function KeyOf(o: BookOrder): Key {
    (o.asset, o.amount, o.price)
  }

  function Unquarantined(h: Health, now: int): BookOrder -> bool {
    (o: BookOrder) => !Quarantined(h, o.id, now)
  }

  function InGroup(k: Key, d: Direction): BookOrder -> bool {
    (o: BookOrder) => KeyOf(o) == k && o.direction == d
  }

  function Eligible(h: Health, now: int, s: seq<BookOrder>): seq<BookOrder> {
    Filter(s, Unquarantined(h, now))
  }

  function Select(s: seq<BookOrder>, k: Key, d: Direction): seq<BookOrder> {
    Filter(s, InGroup(k, d))
  }

  // Keys in the order they are first met.
  function Keys(s: seq<BookOrder>): seq<Key> {
    if s == [] then []
    else
      var before := Keys(s[..|s| - 1]);
      var k := KeyOf(s[|s| - 1]);
      if k in before then before else before + [k]
  }

  function BlockedAt(h: Health, now: int, buys: seq<BookOrder>, sells: seq<BookOrder>): Blocks {
    (i: nat, j: nat) => i < |buys| && j < |sells| && Blocked(h, buys[i].id, sells[j].id, now)
  }

  type Proposal = (BookOrder, BookOrder)

  function Named(m: seq<Match>, buys: seq<BookOrder>, sells: seq<BookOrder>): seq<Proposal>
    requires forall k :: 0 <= k < |m| ==> m[k].0 < |buys| && m[k].1 < |sells|
  {
    seq(|m|, k requires 0 <= k < |m| => (buys[m[k].0], sells[m[k].1]))
  }

  function PairUp(h: Health, now: int, buys: seq<BookOrder>, sells: seq<BookOrder>): seq<Proposal> {
    GreedyIsMatching(BlockedAt(h, now, buys, sells), |buys|, |sells|);
    Named(Greedy(BlockedAt(h, now, buys, sells), |buys|, |sells|), buys, sells)
  }

  function GroupPairs(h: Health, now: int, eligible: seq<BookOrder>, k: Key): seq<Proposal> {
    PairUp(h, now, Select(eligible, k, Bid), Select(eligible, k, Ask))
  }

  function Flatten(keys: seq<Key>, f: Key -> seq<Proposal>): seq<Proposal> {
    if keys == [] then [] else Flatten(keys[..|keys| - 1], f) + f(keys[|keys| - 1])
  }

  function PairsOf(h: Health, now: int, eligible: seq<BookOrder>): Key -> seq<Proposal> {
    (k: Key) => GroupPairs(h, now, eligible, k)
  }

  function AllPairs(h: Health, now: int, eligible: seq<BookOrder>, keys: seq<Key>): seq<Proposal> {
    Flatten(keys, PairsOf(h, now, eligible))
  }

  function Proposals(h: Health, now: int, orders: seq<BookOrder>): seq<Proposal> {
    var eligible := Eligible(h, now, Book(orders));
    AllPairs(h, now, eligible, Keys(eligible))
  }

  // ---- The bot's loops ----

  datatype Bucket = Bucket(buys: seq<BookOrder>, sells: seq<BookOrder>)

  // A map that remembers the order its keys were inserted in.
  datatype Groups = Groups(keys: seq<Key>, buckets: map<Key, Bucket>)

  ghost predicate Grouped(g: Groups, eligible: seq<BookOrder>) {
    && g.keys == Keys(eligible) && (forall k :: k in g.keys <==> k in g.buckets)
    && (forall k <- g.buckets :: g.buckets[k] == Bucket(Select(eligible, k, Bid), Select(eligible, k, Ask)))
    && (forall k :: k !in g.buckets ==> Select(eligible, k, Bid) == [] && Select(eligible, k, Ask) == [])
  }

  function AddOrder(g: Groups, order: BookOrder): Groups {
    var key := KeyOf(order);
    var bucket := if key in g.buckets then g.buckets[key] else Bucket([], []);
    Groups(if key in g.buckets then g.keys else g.keys + [key],
           g.buckets[key := if order.direction == Bid then bucket.(buys := bucket.buys + [order])
                            else bucket.(sells := bucket.sells + [order])])
  }

  lemma GroupedSnoc(g: Groups, eligible: seq<BookOrder>, order: BookOrder)
    requires Grouped(g, eligible)
    ensures Grouped(AddOrder(g, order), eligible + [order])
  {
    assert (eligible + [order])[..|eligible|] == eligible;
    assert Keys(eligible + [order]) == if KeyOf(order) in g.keys then g.keys else g.keys + [KeyOf(order)];
    forall k
      ensures Select(eligible + [order], k, Bid) ==
        Select(eligible, k, Bid) + (if InGroup(k, Bid)(order) then [order] else [])
      ensures Select(eligible + [order], k, Ask) ==
        Select(eligible, k, Ask) + (if InGroup(k, Ask)(order) then [order] else [])
    {
      FilterSnoc(eligible, order, InGroup(k, Bid));
      FilterSnoc(eligible, order, InGroup(k, Ask));
    }
  }

  lemma EligibleSnoc(h: Health, now: int, sorted: seq<BookOrder>, i: nat)
    requires i < |sorted|
    ensures Eligible(h, now, sorted[..i + 1]) ==
      if Quarantined(h, sorted[i].id, now) then Eligible(h, now, sorted[..i])
      else Eligible(h, now, sorted[..i]) + [sorted[i]]
  {
    assert sorted[..i + 1] == sorted[..i] + [sorted[i]];
    FilterSnoc(sorted[..i], sorted[i], Unquarantined(h, now));
  }

  method GroupOrders(sorted: seq<BookOrder>, health: MatchHealth, now: int) returns (groups: Groups)
    modifies health`quarantinedOrders
    ensures Grouped(groups, Eligible(old(health.Contents()), now, sorted))
  {
    ghost var before := health.Contents();
    ghost var eligible := [];
    groups := Groups([], map[]);
    var i := 0;
    while i < |sorted|
      invariant 0 <= i <= |sorted|
      invariant SameQuarantines(before, health.Contents(), now)
      invariant eligible == Eligible(before, now, sorted[..i])
      invariant Grouped(groups, eligible)
    {
      var order := sorted[i];
      EligibleSnoc(before, now, sorted, i);
      i := i + 1;
      var skip := health.IsOrderQuarantined(order.id, now);
      if !skip {
        GroupedSnoc(groups, eligible, order);
        eligible := eligible + [order];
        groups := AddOrder(groups, order);
      }
    }
    assert sorted[..i] == sorted;
  }

  // The first sell that is neither taken nor blocked for this buy.
  method FindSell(buys: seq<BookOrder>, b: nat, sells: seq<BookOrder>, taken: set<OrderId>, health: MatchHealth,
                  now: int, ghost m: seq<Match>) returns (s: nat)
    requires b < |buys| && TakenIds(taken, m, sells)
    ensures s == FirstFree(m, BlockedAt(health.Contents(), now, buys, sells), b, 0, |sells|)
  {
    ghost var blocks := BlockedAt(health.Contents(), now, buys, sells);
    s := 0;
    while s < |sells|
      invariant 0 <= s <= |sells|
      invariant FirstFree(m, blocks, b, 0, |sells|) == FirstFree(m, blocks, b, s, |sells|)
    {
      var blocked := health.IsPairBlocked(buys[b].id, sells[s].id, now);
      if sells[s].id !in taken && !blocked {
        return;
      }
      s := s + 1;
    }
  }

  ghost predicate TakenIds(taken: set<OrderId>, m: seq<Match>, sells: seq<BookOrder>) {
    forall j :: 0 <= j < |sells| ==> (sells[j].id in taken <==> Taken(m, j))
  }

  lemma TakeOne(taken: set<OrderId>, m: seq<Match>, sells: seq<BookOrder>, b: nat, s: nat)
    requires UniqueIds(sells) && s < |sells| && TakenIds(taken, m, sells)
    ensures TakenIds(taken + {sells[s].id}, m + [(b, s)], sells)
  {
    var grown := m + [(b, s)];
    assert grown[|m|] == (b, s);
    forall j | 0 <= j < |sells|
      ensures Taken(grown, j) <==> Taken(m, j) || j == s
    {
      if Taken(m, j) {
        var k :| 0 <= k < |m| && m[k].1 == j;
        assert grown[k].1 == j;
      }
    }
  }

  // The pairs found so far are the matched positions' orders.
  ghost predicate Names(pairs: seq<Proposal>, m: seq<Match>, buys: seq<BookOrder>, sells: seq<BookOrder>) {
    |pairs| == |m|
    && forall k :: 0 <= k < |m| ==>
         m[k].0 < |buys| && m[k].1 < |sells| && pairs[k] == (buys[m[k].0], sells[m[k].1])
  }

  lemma NamesSnoc(pairs: seq<Proposal>, m: seq<Match>, buys: seq<BookOrder>, sells: seq<BookOrder>, b: nat, s: nat)
    requires Names(pairs, m, buys, sells) && b < |buys| && s < |sells|
    ensures Names(pairs + [(buys[b], sells[s])], m + [(b, s)], buys, sells)
  {
  }

  // One step of the loop: the next buy gets the first free sell, if there is one.
  lemma PairOne(blocks: Blocks, buys: seq<BookOrder>, sells: seq<BookOrder>, b: nat, m: seq<Match>,
                pairs: seq<Proposal>, taken: set<OrderId>, s: nat)
    requires b < |buys| && UniqueIds(sells)
    requires m == Greedy(blocks, b, |sells|) && s == FirstFree(m, blocks, b, 0, |sells|)
    requires Names(pairs, m, buys, sells) && TakenIds(taken, m, sells)
    ensures s >= |sells| ==> m == Greedy(blocks, b + 1, |sells|)
    ensures s < |sells| ==>
      var next := m + [(b, s)];
      && next == Greedy(blocks, b + 1, |sells|) && Names(pairs + [(buys[b], sells[s])], next, buys, sells)
      && TakenIds(taken + {sells[s].id}, next, sells)
  {
    if s < |sells| {
      TakeOne(taken, m, sells, b, s);
      NamesSnoc(pairs, m, buys, sells, b, s);
    }
  }

  lemma NamesAll(h: Health, now: int, buys: seq<BookOrder>, sells: seq<BookOrder>, m: seq<Match>, pairs: seq<Proposal>)
    requires m == Greedy(BlockedAt(h, now, buys, sells), |buys|, |sells|) && Names(pairs, m, buys, sells)
    ensures pairs == PairUp(h, now, buys, sells)
  {
    GreedyIsMatching(BlockedAt(h, now, buys, sells), |buys|, |sells|);
    assert pairs == Named(m, buys, sells);
  }

  method MatchGroup(buys: seq<BookOrder>, sells: seq<BookOrder>, health: MatchHealth, now: int)
    returns (pairs: seq<Proposal>)
    requires UniqueIds(sells)
    ensures pairs == PairUp(health.Contents(), now, buys, sells)
  {
    ghost var blocks := BlockedAt(health.Contents(), now, buys, sells);
    ghost var m := [];
    pairs := [];
    var taken: set<OrderId> := {};
    var b := 0;
    while b < |buys|
      invariant 0 <= b <= |buys| && m == Greedy(blocks, b, |sells|)
      invariant Names(pairs, m, buys, sells)
      invariant TakenIds(taken, m, sells)
    {
      var s := FindSell(buys, b, sells, taken, health, now, m);
      PairOne(blocks, buys, sells, b, m, pairs, taken, s);
      if s < |sells| {
        taken := taken + {sells[s].id};
        pairs := pairs + [(buys[b], sells[s])];
        m := m + [(b, s)];
      }
      b := b + 1;
    }
    NamesAll(health.Contents(), now, buys, sells, m, pairs);
  }

  method MatchGroups(groups: Groups, health: MatchHealth, now: int, ghost eligible: seq<BookOrder>)
    returns (pairs: seq<Proposal>)
    requires Grouped(groups, eligible) && UniqueIds(eligible)
    ensures pairs == AllPairs(health.Contents(), now, eligible, groups.keys)
  {
    pairs := [];
    var i := 0;
    while i < |groups.keys|
      invariant 0 <= i <= |groups.keys|
      invariant pairs == AllPairs(health.Contents(), now, eligible, groups.keys[..i])
    {
      assert groups.keys[..i + 1][..i] == groups.keys[..i];
      var key := groups.keys[i];
      assert key in groups.keys;
      SelectMeaning(eligible, key, Ask);
      var group := MatchGroup(groups.buckets[key].buys, groups.buckets[key].sells, health, now);
      pairs := pairs + group;
      i := i + 1;
    }
    assert groups.keys[..i] == groups.keys;
  }

  // Every non-overlapping exact-match pair, best priority first.
  method FindMatches(orders: seq<BookOrder>, health: MatchHealth, now: int) returns (pairs: seq<Proposal>)
    requires UniqueIds(orders)
    modifies health`quarantinedOrders
    ensures pairs == Proposals(old(health.Contents()), now, orders)
  {
    ghost var before := health.Contents();
    BookKeepsOrders(orders);
    EligibleMeaning(before, now, Book(orders));
    ghost var eligible := Eligible(before, now, Book(orders));
    var groups := GroupOrders(Book(orders), health, now);
    pairs := MatchGroups(groups, health, now, eligible);
    AllPairsSame(health.Contents(), before, now, eligible, groups.keys);
  }

  lemma {:induction false} AllPairsSame(h: Health, g: Health, now: int, eligible: seq<BookOrder>, keys: seq<Key>)
    requires h.pairs == g.pairs
    ensures AllPairs(h, now, eligible, keys) == AllPairs(g, now, eligible, keys)
  {
    if keys != [] {
      var k := keys[|keys| - 1];
      AllPairsSame(h, g, now, eligible, keys[..|keys| - 1]);
      SamePairs(h, g, now, Select(eligible, k, Bid), Select(eligible, k, Ask));
    }
  }

  // Pairing looks at the pair backoffs only.
  lemma SamePairs(h: Health, g: Health, now: int, buys: seq<BookOrder>, sells: seq<BookOrder>)
    requires h.pairs == g.pairs
    ensures PairUp(h, now, buys, sells) == PairUp(g, now, buys, sells)
  {
    GreedySame(BlockedAt(h, now, buys, sells), BlockedAt(g, now, buys, sells), |buys|, |sells|);
  }

  lemma {:induction false} GreedySame(f: Blocks, g: Blocks, buys: nat, sells: nat)
    requires forall i: nat, j: nat :: f(i, j) == g(i, j)
    ensures Greedy(f, buys, sells) == Greedy(g, buys, sells)
  {
    if buys > 0 {
      GreedySame(f, g, buys - 1, sells);
      FirstFreeSame(f, g, Greedy(f, buys - 1, sells), buys - 1, 0, sells);
    }
  }

  lemma {:induction false} FirstFreeSame(f: Blocks, g: Blocks, m: seq<Match>, buy: nat, from: nat, sells: nat)
    requires from <= sells && forall i: nat, j: nat :: f(i, j) == g(i, j)
    ensures FirstFree(m, f, buy, from, sells) == FirstFree(m, g, buy, from, sells)
    decreases sells - from
  {
    if from < sells {
      FirstFreeSame(f, g, m, buy, from + 1, sells);
    }
  }

  // ---- What filtering keeps ----

  // Appending one element to a filtered sequence keeps the order of the unfiltered one.
  lemma BeforeExtends(s: seq<BookOrder>, last: BookOrder, f: seq<BookOrder>, e: seq<BookOrder>, x: BookOrder,
                      y: BookOrder)
    requires e == f || e == f + [last]
    requires forall o :: o in f ==> o in s
    requires forall p, q :: Before(f, p, q) ==> Before(s, p, q)
    requires Before(e, x, y)
    ensures Before(s + [last], x, y)
  {
    var i, j :| 0 <= i < j < |e| && e[i] == x && e[j] == y;
    assert forall k :: 0 <= k < |f| ==> f[k] in s;
    if j < |f| {
      assert f[i] == x && f[j] == y;
      assert Before(f, x, y);
      var a, b :| 0 <= a < b < |s| && s[a] == x && s[b] == y;
      assert (s + [last])[a] == x && (s + [last])[b] == y;
    } else {
      assert f[i] in s;
      var a :| 0 <= a < |s| && s[a] == x;
      assert (s + [last])[a] == x && (s + [last])[|s|] == y;
    }
  }

  lemma {:induction false} FilterMeaning(s: seq<BookOrder>, keep: BookOrder -> bool)
    requires UniqueIds(s)
    ensures var r := Filter(s, keep);
      UniqueIds(r) && (forall o :: o in r <==> o in s && keep(o)) && forall x, y :: Before(r, x, y) ==> Before(s, x, y)
  {
    if s != [] {
      var n := |s| - 1;
      FilterMeaning(s[..n], keep);
      var r, f := Filter(s, keep), Filter(s[..n], keep);
      assert s == s[..n] + [s[n]];
      forall o | o in f
        ensures o.id != s[n].id
      {
        var i :| 0 <= i < n && s[i] == o;
      }
      forall x, y | Before(r, x, y)
        ensures Before(s, x, y)
      {
        BeforeExtends(s[..n], s[n], f, r, x, y);
      }
    }
  }

  lemma EligibleMeaning(h: Health, now: int, s: seq<BookOrder>)
    requires UniqueIds(s)
    ensures var e := Eligible(h, now, s);
      UniqueIds(e) && (forall o :: o in e <==> o in s && !Quarantined(h, o.id, now))
      && forall x, y :: Before(e, x, y) ==> Before(s, x, y)
  {
    FilterMeaning(s, Unquarantined(h, now));
  }

  lemma SelectMeaning(s: seq<BookOrder>, k: Key, d: Direction)
    requires UniqueIds(s)
    ensures var r := Select(s, k, d);
      UniqueIds(r) && (forall o :: o in r <==> o in s && KeyOf(o) == k && o.direction == d)
      && forall x, y :: Before(r, x, y) ==> Before(s, x, y)
  {
    FilterMeaning(s, InGroup(k, d));
  }

  lemma {:induction false} KeysMeaning(s: seq<BookOrder>)
    ensures forall o :: o in s ==> KeyOf(o) in Keys(s)
    ensures forall i, j :: 0 <= i < j < |Keys(s)| ==> Keys(s)[i] != Keys(s)[j]
  {
    if s != [] {
      KeysMeaning(s[..|s| - 1]);
      assert forall o :: o in s <==> o in s[..|s| - 1] || o == s[|s| - 1];
    }
  }

  lemma {:induction false} FlattenMeaning(keys: seq<Key>, f: Key -> seq<Proposal>, p: Proposal)
    ensures p in Flatten(keys, f) <==> exists k :: k in keys && p in f(k)
  {
    if keys != [] {
      var n := |keys| - 1;
      FlattenMeaning(keys[..n], f, p);
      assert forall k :: k in keys <==> k in keys[..n] || k == keys[n];
    }
  }

  lemma AllPairsMeaning(h: Health, now: int, eligible: seq<BookOrder>, keys: seq<Key>, p: Proposal)
    ensures p in AllPairs(h, now, eligible, keys) <==> exists k :: k in keys && p in GroupPairs(h, now, eligible, k)
  {
    FlattenMeaning(keys, PairsOf(h, now, eligible), p);
    assert forall k :: PairsOf(h, now, eligible)(k) == GroupPairs(h, now, eligible, k);
  }

  // ---- What the proposals are worth ----

  predicate SameTerms(a: BookOrder, b: BookOrder) {
    a.asset == b.asset && a.amount == b.amount && a.price == b.price
  }

  ghost predicate Allowed(h: Health, now: int, orders: seq<BookOrder>, buy: BookOrder, sell: BookOrder) {
    && buy in orders && sell in orders && buy.direction == Bid && sell.direction == Ask
    && SameTerms(buy, sell)
    && !Quarantined(h, buy.id, now) && !Quarantined(h, sell.id, now) && !Blocked(h, buy.id, sell.id, now)
  }

  lemma GroupPairMeaning(h: Health, now: int, eligible: seq<BookOrder>, k: Key, p: Proposal)
    requires UniqueIds(eligible) && p in GroupPairs(h, now, eligible, k)
    ensures p.0 in eligible && p.1 in eligible && p.0.direction == Bid && p.1.direction == Ask
    ensures KeyOf(p.0) == k && KeyOf(p.1) == k && !Blocked(h, p.0.id, p.1.id, now)
  {
    var buys, sells := Select(eligible, k, Bid), Select(eligible, k, Ask);
    SelectMeaning(eligible, k, Bid);
    SelectMeaning(eligible, k, Ask);
    GreedyIsMatching(BlockedAt(h, now, buys, sells), |buys|, |sells|);
    var m := Greedy(BlockedAt(h, now, buys, sells), |buys|, |sells|);
    var g :| 0 <= g < |m| && p == (buys[m[g].0], sells[m[g].1]);
    assert p.0 in buys && p.1 in sells;
  }

  // Proposed pairs are exact-term, unquarantined and unblocked.
  lemma ProposalsAreAllowed(h: Health, now: int, orders: seq<BookOrder>, p: Proposal)
    requires UniqueIds(orders) && p in Proposals(h, now, orders)
    ensures Allowed(h, now, orders, p.0, p.1)
  {
    var eligible := Eligible(h, now, Book(orders));
    BookKeepsOrders(orders);
    EligibleMeaning(h, now, Book(orders));
    AllPairsMeaning(h, now, eligible, Keys(eligible), p);
    var k :| k in Keys(eligible) && p in GroupPairs(h, now, eligible, k);
    GroupPairMeaning(h, now, eligible, k, p);
  }

  // No order is proposed twice.
  ghost predicate Apart(ps: seq<Proposal>) {
    forall i, j :: 0 <= i < j < |ps| ==> ps[i].0 != ps[j].0 && ps[i].1 != ps[j].1
  }

  lemma GroupPairsApart(h: Health, now: int, eligible: seq<BookOrder>, k: Key)
    requires UniqueIds(eligible)
    ensures Apart(GroupPairs(h, now, eligible, k))
  {
    var buys, sells := Select(eligible, k, Bid), Select(eligible, k, Ask);
    SelectMeaning(eligible, k, Bid);
    SelectMeaning(eligible, k, Ask);
    GreedyIsMatching(BlockedAt(h, now, buys, sells), |buys|, |sells|);
  }

  lemma {:induction false} AllPairsApart(h: Health, now: int, eligible: seq<BookOrder>, keys: seq<Key>)
    requires UniqueIds(eligible) && forall i, j :: 0 <= i < j < |keys| ==> keys[i] != keys[j]
    ensures Apart(AllPairs(h, now, eligible, keys))
  {
    if keys != [] {
      var n := |keys| - 1;
      AllPairsApart(h, now, eligible, keys[..n]);
      GroupPairsApart(h, now, eligible, keys[n]);
      var before, group := AllPairs(h, now, eligible, keys[..n]), GroupPairs(h, now, eligible, keys[n]);
      forall i, j | 0 <= i < |before| && 0 <= j < |group|
        ensures before[i].0 != group[j].0 && before[i].1 != group[j].1
      {
        AllPairsMeaning(h, now, eligible, keys[..n], before[i]);
        var k :| k in keys[..n] && before[i] in GroupPairs(h, now, eligible, k);
        GroupPairMeaning(h, now, eligible, k, before[i]);
        GroupPairMeaning(h, now, eligible, keys[n], group[j]);
      }
    }
  }

  lemma ProposalsAreApart(h: Health, now: int, orders: seq<BookOrder>)
    requires UniqueIds(orders)
    ensures Apart(Proposals(h, now, orders))
  {
    BookKeepsOrders(orders);
    EligibleMeaning(h, now, Book(orders));
    var eligible := Eligible(h, now, Book(orders));
    KeysMeaning(eligible);
    AllPairsApart(h, now, eligible, Keys(eligible));
  }

  // Paired together, or the buy with an earlier sell, or the sell with an earlier buy.
  ghost predicate Settled(ps: seq<Proposal>, book: seq<BookOrder>, buy: BookOrder, sell: BookOrder) {
    || (buy, sell) in ps
    || (exists s' :: (buy, s') in ps && Before(book, s', sell))
    || (exists b' :: (b', sell) in ps && Before(book, b', buy))
  }

  lemma MatchIsProposed(h: Health, now: int, eligible: seq<BookOrder>, k: Key, i: nat, j: nat)
    requires var buys, sells := Select(eligible, k, Bid), Select(eligible, k, Ask);
      i < |buys| && j < |sells| && (i, j) in Greedy(BlockedAt(h, now, buys, sells), |buys|, |sells|)
    ensures (Select(eligible, k, Bid)[i], Select(eligible, k, Ask)[j]) in GroupPairs(h, now, eligible, k)
  {
    var buys, sells := Select(eligible, k, Bid), Select(eligible, k, Ask);
    var m := Greedy(BlockedAt(h, now, buys, sells), |buys|, |sells|);
    var g :| 0 <= g < |m| && m[g] == (i, j);
    assert GroupPairs(h, now, eligible, k)[g] == (buys[i], sells[j]);
  }

  lemma GroupIsStable(h: Health, now: int, eligible: seq<BookOrder>, k: Key, i: nat, j: nat)
    requires UniqueIds(eligible)
    requires var buys, sells := Select(eligible, k, Bid), Select(eligible, k, Ask);
      i < |buys| && j < |sells| && !Blocked(h, buys[i].id, sells[j].id, now)
    ensures Settled(GroupPairs(h, now, eligible, k), eligible, Select(eligible, k, Bid)[i], Select(eligible, k, Ask)[j])
  {
    var buys, sells := Select(eligible, k, Bid), Select(eligible, k, Ask);
    SelectMeaning(eligible, k, Bid);
    SelectMeaning(eligible, k, Ask);
    var m := Greedy(BlockedAt(h, now, buys, sells), |buys|, |sells|);
    GreedyIsStable(BlockedAt(h, now, buys, sells), |buys|, |sells|, i, j);
    if (i, j) in m {
      MatchIsProposed(h, now, eligible, k, i, j);
    } else if j' :| 0 <= j' < j && (i, j') in m {
      MatchIsProposed(h, now, eligible, k, i, j');
      assert Before(sells, sells[j'], sells[j]);
    } else {
      var i' :| 0 <= i' < i && (i', j) in m;
      MatchIsProposed(h, now, eligible, k, i', j);
      assert Before(buys, buys[i'], buys[i]);
    }
  }

  // Stability over the whole book.
  lemma ProposalsAreStable(h: Health, now: int, orders: seq<BookOrder>, buy: BookOrder, sell: BookOrder)
    requires UniqueIds(orders) && Allowed(h, now, orders, buy, sell)
    ensures Settled(Proposals(h, now, orders), Book(orders), buy, sell)
  {
    var eligible := Eligible(h, now, Book(orders));
    BookKeepsOrders(orders);
    EligibleMeaning(h, now, Book(orders));
    KeysMeaning(eligible);
    SelectMeaning(eligible, KeyOf(buy), Bid);
    SelectMeaning(eligible, KeyOf(buy), Ask);
    var buys, sells := Select(eligible, KeyOf(buy), Bid), Select(eligible, KeyOf(buy), Ask);
    var i :| 0 <= i < |buys| && buys[i] == buy;
    var j :| 0 <= j < |sells| && sells[j] == sell;
    GroupIsStable(h, now, eligible, KeyOf(buy), i, j);
    var group := GroupPairs(h, now, eligible, KeyOf(buy));
    forall p | p in group
      ensures p in Proposals(h, now, orders)
    {
      AllPairsMeaning(h, now, eligible, Keys(eligible), p);
    }
  }

  // A set of pairs that uses no order twice.
  ghost predicate IsMatching(m: set<Proposal>) {
    forall p, q :: p in m && q in m && p != q ==> p.0 != q.0 && p.1 != q.1
  }

  lemma {:induction false} FewBuyers(m: set<Proposal>, buyers: set<BookOrder>)
    requires IsMatching(m) && forall p :: p in m ==> p.0 in buyers
    ensures |m| <= |buyers|
  {
    if m != {} {
      var p :| p in m;
      FewBuyers(m - {p}, buyers - {p.0});
    }
  }

  lemma {:induction false} FewSellers(m: set<Proposal>, sellers: set<BookOrder>)
    requires IsMatching(m) && forall p :: p in m ==> p.1 in sellers
    ensures |m| <= |sellers|
  {
    if m != {} {
      var p :| p in m;
      FewSellers(m - {p}, sellers - {p.1});
    }
  }

  lemma {:induction false} SidesOf(ps: seq<Proposal>) returns (buyers: set<BookOrder>, sellers: set<BookOrder>)
    ensures |buyers| <= |ps| && |sellers| <= |ps|
    ensures forall p :: p in ps ==> p.0 in buyers && p.1 in sellers
  {
    if ps == [] {
      buyers, sellers := {}, {};
    } else {
      var n := |ps| - 1;
      buyers, sellers := SidesOf(ps[..n]);
      buyers, sellers := buyers + {ps[n].0}, sellers + {ps[n].1};
      assert forall p :: p in ps ==> p in ps[..n] || p == ps[n];
    }
  }

  lemma CoveredByTwo<T>(s: set<T>, a: set<T>, b: set<T>)
    requires forall x :: x in s ==> x in a || x in b
    ensures |s| <= |a| + |b|
  {
    SubsetSize(s, a + b);
    assert |a + b| == |a| + |b| - |a * b|;
  }

  // At least half as many pairs as any other allowed matching of the same book.
  lemma AtLeastHalf(h: Health, now: int, orders: seq<BookOrder>, other: set<Proposal>)
    requires UniqueIds(orders) && IsMatching(other)
    requires forall p :: p in other ==> Allowed(h, now, orders, p.0, p.1)
    ensures |other| <= 2 * |Proposals(h, now, orders)|
  {
    var ps := Proposals(h, now, orders);
    var buyers, sellers := SidesOf(ps);
    var byBuyer := set p | p in other && p.0 in buyers;
    var bySeller := set p | p in other && p.1 in sellers;
    forall p | p in other
      ensures p in byBuyer || p in bySeller
    {
      ProposalsAreStable(h, now, orders, p.0, p.1);
    }
    FewBuyers(byBuyer, buyers);
    FewSellers(bySeller, sellers);
    CoveredByTwo(other, byBuyer, bySeller);
  }

  // A row of the database that the bot has put into its book.
  predicate Describes(o: BookOrder, row: Settlement.OrderDoc) {
    o.direction == row.direction && o.asset == row.asset && o.amount == row.amount && o.price == row.price
  }

  // What the bot then builds is refused neither for the sides nor for the terms.
  lemma ProposalsAreTradable(h: Health, now: int, orders: seq<BookOrder>, p: Proposal, supported: set<Hash>,
                             buy: Settlement.OrderDoc, sell: Settlement.OrderDoc, occupied: Settlement.Occupied,
                             fee: nat)
    requires UniqueIds(orders) && p in Proposals(h, now, orders) && Describes(p.0, buy) && Describes(p.1, sell)
    ensures p.0.asset == p.1.asset && p.0.amount == p.1.amount && p.0.price == p.1.price
    ensures var r := Settlement.ExecuteTrade(supported, buy, sell, occupied, fee);
      r.Err? ==> r.error != Settlement.TermsDiffer && r.error != Settlement.WrongDirections
  {
    ProposalsAreAllowed(h, now, orders, p);
  }

  // ---- The proposals of one price and amount ----

  function OfTerms(asset: Hash, amount: nat, price: nat): BookOrder -> bool {
    (o: BookOrder) => o.asset == asset && o.amount == amount && o.price == price
  }

  function OnSide(asset: Hash, amount: nat, price: nat, d: Direction): BookOrder -> bool {
    (o: BookOrder) => o.asset == asset && o.amount == amount && o.price == price && o.direction == d
  }

  function BuyHas(asset: Hash, amount: nat, price: nat): Proposal -> bool {
    (p: Proposal) => OfTerms(asset, amount, price)(p.0)
  }

  // One side of the unquarantined orders of some terms, in book order.
  function SideOf(h: Health, now: int, orders: seq<BookOrder>, asset: Hash, amount: nat, price: nat,
                  d: Direction): seq<BookOrder>
  {
    Filter(Eligible(h, now, Book(orders)), OnSide(asset, amount, price, d))
  }

  // The proposals of these terms, in the order they are made.
  function ProposalsOf(h: Health, now: int, orders: seq<BookOrder>, asset: Hash, amount: nat,
                       price: nat): seq<Proposal>
  {
    Filter(Proposals(h, now, orders), BuyHas(asset, amount, price))
  }

  lemma {:induction false} FilterAgrees<T(!new)>(s: seq<T>, f: T -> bool, g: T -> bool)
    requires forall x :: f(x) <==> g(x)
    ensures Filter(s, f) == Filter(s, g)
  {
    if s != [] {
      FilterAgrees(s[..|s| - 1], f, g);
    }
  }

  lemma {:induction false} FilterConcat<T(!new)>(s: seq<T>, t: seq<T>, keep: T -> bool)
    ensures Filter(s + t, keep) == Filter(s, keep) + Filter(t, keep)
  {
    if t == [] {
      assert s + t == s;
    } else {
      var n := |t| - 1;
      FilterConcat(s, t[..n], keep);
      assert (s + t)[..|s| + n] == s + t[..n];
    }
  }

  lemma {:induction false} FilterAll<T(!new)>(s: seq<T>, keep: T -> bool, all: bool)
    requires forall x :: x in s ==> keep(x) == all
    ensures Filter(s, keep) == if all then s else []
  {
    if s != [] {
      FilterAll(s[..|s| - 1], keep, all);
    }
  }

  // Only the group of these terms adds to them.
  lemma {:induction false} FlattenOf(keys: seq<Key>, f: Key -> seq<Proposal>, keep: Proposal -> bool, k: Key)
    requires forall i, j :: 0 <= i < j < |keys| ==> keys[i] != keys[j]
    requires forall i, p :: i in keys && p in f(i) ==> (keep(p) <==> i == k)
    ensures Filter(Flatten(keys, f), keep) == if k in keys then f(k) else []
  {
    if keys != [] {
      var n := |keys| - 1;
      FlattenOf(keys[..n], f, keep, k);
      FilterConcat(Flatten(keys[..n], f), f(keys[n]), keep);
      FilterAll(f(keys[n]), keep, keys[n] == k);
      assert keys[n] !in keys[..n];
    }
  }

  lemma SideIsSelect(h: Health, now: int, orders: seq<BookOrder>, asset: Hash, amount: nat, price: nat, d: Direction)
    ensures SideOf(h, now, orders, asset, amount, price, d) ==
      Select(Eligible(h, now, Book(orders)), (asset, amount, price), d)
  {
    FilterAgrees(Eligible(h, now, Book(orders)), OnSide(asset, amount, price, d),
                 InGroup((asset, amount, price), d));
  }

  lemma GroupPairsInGroup(h: Health, now: int, eligible: seq<BookOrder>, k: Key, asset: Hash, amount: nat, price: nat)
    requires UniqueIds(eligible)
    ensures forall p :: p in GroupPairs(h, now, eligible, k) ==>
      (OfTerms(asset, amount, price)(p.0) <==> k == (asset, amount, price))
  {
    forall p | p in GroupPairs(h, now, eligible, k)
      ensures OfTerms(asset, amount, price)(p.0) <==> k == (asset, amount, price)
    {
      GroupPairMeaning(h, now, eligible, k, p);
    }
  }

  // Without an order of these terms there is nothing to pair.
  lemma NoSideNoPairs(h: Health, now: int, eligible: seq<BookOrder>, k: Key)
    requires UniqueIds(eligible) && k !in Keys(eligible)
    ensures GroupPairs(h, now, eligible, k) == []
  {
    KeysMeaning(eligible);
    FilterAll(eligible, InGroup(k, Bid), false);
  }

  // The proposals of some terms are the greedy pairing of their two sides, and no others have these terms.
  lemma ProposalsOfTerms(h: Health, now: int, orders: seq<BookOrder>, asset: Hash, amount: nat, price: nat)
    requires UniqueIds(orders)
    ensures ProposalsOf(h, now, orders, asset, amount, price) ==
      PairUp(h, now, SideOf(h, now, orders, asset, amount, price, Bid),
             SideOf(h, now, orders, asset, amount, price, Ask))
  {
    var eligible, k := Eligible(h, now, Book(orders)), (asset, amount, price);
    BookKeepsOrders(orders);
    EligibleMeaning(h, now, Book(orders));
    KeysMeaning(eligible);
    SideIsSelect(h, now, orders, asset, amount, price, Bid);
    SideIsSelect(h, now, orders, asset, amount, price, Ask);
    forall i | i in Keys(eligible)
      ensures forall p :: p in PairsOf(h, now, eligible)(i) ==> (OfTerms(asset, amount, price)(p.0) <==> i == k)
    {
      GroupPairsInGroup(h, now, eligible, i, asset, amount, price);
    }
    FlattenOf(Keys(eligible), PairsOf(h, now, eligible), BuyHas(asset, amount, price), k);
    if k !in Keys(eligible) {
      NoSideNoPairs(h, now, eligible, k);
    }
  }

  lemma UnblockedPairUp(h: Health, now: int, buys: seq<BookOrder>, sells: seq<BookOrder>)
    requires forall i, j :: 0 <= i < |buys| && 0 <= j < |sells| ==> !Blocked(h, buys[i].id, sells[j].id, now)
    ensures var pairs := PairUp(h, now, buys, sells);
      |pairs| == (if |buys| <= |sells| then |buys| else |sells|)
      && forall i :: 0 <= i < |pairs| ==> pairs[i] == (buys[i], sells[i])
  {
    GreedyUnblocked(BlockedAt(h, now, buys, sells), |buys|, |sells|);
  }

  lemma SideMeaning(h: Health, now: int, orders: seq<BookOrder>, asset: Hash, amount: nat, price: nat, d: Direction)
    requires UniqueIds(orders)
    ensures var side := SideOf(h, now, orders, asset, amount, price, d);
      && UniqueIds(side)
      && (forall o :: o in side <==>
            o in orders && o.asset == asset && o.amount == amount && o.price == price && o.direction == d
            && !Quarantined(h, o.id, now))
      && (forall x, y :: Before(side, x, y) ==> Before(Book(orders), x, y))
  {
    BookKeepsOrders(orders);
    EligibleMeaning(h, now, Book(orders));
    var side := SideOf(h, now, orders, asset, amount, price, d);
    FilterMeaning(Eligible(h, now, Book(orders)), OnSide(asset, amount, price, d));
    forall x, y | Before(side, x, y)
      ensures Before(Book(orders), x, y)
    {
      assert Before(Eligible(h, now, Book(orders)), x, y);
    }
  }

  // With no pair of some terms blocked, the i-th buy of these terms meets the i-th sell until one side runs out.
  lemma UnblockedGroup(h: Health, now: int, orders: seq<BookOrder>, asset: Hash, amount: nat, price: nat)
    requires UniqueIds(orders)
    requires forall b, s ::
      (b in orders && s in orders && OfTerms(asset, amount, price)(b) && OfTerms(asset, amount, price)(s)) ==>
        !Blocked(h, b.id, s.id, now)
    ensures var buys := SideOf(h, now, orders, asset, amount, price, Bid);
      var sells := SideOf(h, now, orders, asset, amount, price, Ask);
      var pairs := ProposalsOf(h, now, orders, asset, amount, price);
      && |pairs| == (if |buys| <= |sells| then |buys| else |sells|)
      && (forall i :: 0 <= i < |pairs| ==> pairs[i] == (buys[i], sells[i]))
  {
    var buys := SideOf(h, now, orders, asset, amount, price, Bid);
    var sells := SideOf(h, now, orders, asset, amount, price, Ask);
    ProposalsOfTerms(h, now, orders, asset, amount, price);
    SideMeaning(h, now, orders, asset, amount, price, Bid);
    SideMeaning(h, now, orders, asset, amount, price, Ask);
    forall i, j | 0 <= i < |buys| && 0 <= j < |sells|
      ensures !Blocked(h, buys[i].id, sells[j].id, now)
    {
      assert buys[i] in buys && sells[j] in sells;
    }
    UnblockedPairUp(h, now, buys, sells);
  }

  lemma SortedBefore(cmp: Comparator<BookOrder>, book: seq<BookOrder>, x: BookOrder, y: BookOrder)
    requires Sorted(cmp, book) && Before(book, x, y)
    ensures cmp(x, y) <= 0
  {
  }

  // The book is in price-time priority: sells before buys, better prices first, older orders first among equals.
  lemma BookIsPriceTime(orders: seq<BookOrder>, i: nat, j: nat)
    requires i < j < |Book(orders)|
    ensures var x, y := Book(orders)[i], Book(orders)[j];
      && (x.direction == Bid ==> y.direction == Bid)
      && (x.direction == y.direction == Ask ==> x.price <= y.price)
      && (x.direction == y.direction == Bid ==> x.price >= y.price)
      && (x.direction == y.direction && x.price == y.price ==>
            x.block < y.block || (x.block == y.block && x.txIndex <= y.txIndex))
  {
    CompareIsTotalPreorder();
    SortSorts(Compare, orders);
    assert Compare(Book(orders)[i], Book(orders)[j]) <= 0;
  }

  // Within one side of some terms, earlier means older on the chain.
  lemma GroupsAreOldestFirst(h: Health, now: int, orders: seq<BookOrder>, asset: Hash, amount: nat, price: nat,
                             d: Direction, i: nat, j: nat)
    requires UniqueIds(orders) && i < j < |SideOf(h, now, orders, asset, amount, price, d)|
    ensures var side := SideOf(h, now, orders, asset, amount, price, d);
      side[i].block < side[j].block || (side[i].block == side[j].block && side[i].txIndex <= side[j].txIndex)
  {
    var side := SideOf(h, now, orders, asset, amount, price, d);
    SideMeaning(h, now, orders, asset, amount, price, d);
    assert side[i] in side && side[j] in side && Before(side, side[i], side[j]);
    CompareIsTotalPreorder();
    SortSorts(Compare, orders);
    SortedBefore(Compare, Book(orders), side[i], side[j]);
  }

  // ---- The order of the proposals ----

  ghost predicate FirstMet(s: seq<BookOrder>, k: Key, i: nat) {
    i < |s| && KeyOf(s[i]) == k && forall j :: 0 <= j < i ==> KeyOf(s[j]) != k
  }

  lemma NewKeyIsMet(s: seq<BookOrder>)
    requires s != [] && KeyOf(s[|s| - 1]) !in Keys(s[..|s| - 1])
    ensures FirstMet(s, KeyOf(s[|s| - 1]), |s| - 1)
  {
    KeysMeaning(s[..|s| - 1]);
    assert forall h :: 0 <= h < |s| - 1 ==> s[h] in s[..|s| - 1];
  }

  lemma {:induction false} KeyIsMet(s: seq<BookOrder>, a: nat) returns (i: nat)
    requires a < |Keys(s)|
    ensures FirstMet(s, Keys(s)[a], i)
  {
    var n := |s| - 1;
    if a < |Keys(s[..n])| {
      i := KeyIsMet(s[..n], a);
    } else {
      i := n;
      NewKeyIsMet(s);
    }
  }

  // Keys come in the order in which they are first met.
  lemma {:induction false} KeysInOrder(s: seq<BookOrder>, a: nat, b: nat) returns (i: nat, j: nat)
    requires a < b < |Keys(s)|
    ensures i < j && FirstMet(s, Keys(s)[a], i) && FirstMet(s, Keys(s)[b], j)
  {
    var n := |s| - 1;
    if b < |Keys(s[..n])| {
      i, j := KeysInOrder(s[..n], a, b);
    } else {
      i := KeyIsMet(s[..n], a);
      j := n;
      NewKeyIsMet(s);
    }
  }

  // An earlier proposal of the same terms has the earlier buy; one of other terms has terms that stand first
  // in the book before any order of the later one's.
  ghost predicate InBookOrder(eligible: seq<BookOrder>, p: Proposal, q: Proposal) {
    if SameTerms(p.0, q.0) then Before(eligible, p.0, q.0)
    else exists i :: 0 <= i < |eligible| && SameTerms(eligible[i], p.0)
           && forall j :: 0 <= j < |eligible| && SameTerms(eligible[j], q.0) ==> i < j
  }

  lemma KeyIsTerms(x: BookOrder, y: BookOrder)
    ensures KeyOf(x) == KeyOf(y) <==> SameTerms(x, y)
  {
  }

  lemma GroupInOrder(h: Health, now: int, eligible: seq<BookOrder>, k: Key, i: nat, j: nat)
    requires UniqueIds(eligible) && i < j < |GroupPairs(h, now, eligible, k)|
    ensures InBookOrder(eligible, GroupPairs(h, now, eligible, k)[i], GroupPairs(h, now, eligible, k)[j])
  {
    var buys, sells := Select(eligible, k, Bid), Select(eligible, k, Ask);
    var pairs, m := GroupPairs(h, now, eligible, k), Greedy(BlockedAt(h, now, buys, sells), |buys|, |sells|);
    SelectMeaning(eligible, k, Bid);
    GreedyIsMatching(BlockedAt(h, now, buys, sells), |buys|, |sells|);
    GroupPairMeaning(h, now, eligible, k, pairs[i]);
    GroupPairMeaning(h, now, eligible, k, pairs[j]);
    assert pairs[i].0 == buys[m[i].0] && pairs[j].0 == buys[m[j].0];
    assert Before(buys, pairs[i].0, pairs[j].0);
  }

  lemma GroupsInOrder(h: Health, now: int, eligible: seq<BookOrder>, a: nat, b: nat, p: Proposal, q: Proposal)
    requires UniqueIds(eligible) && a < b < |Keys(eligible)|
    requires p in GroupPairs(h, now, eligible, Keys(eligible)[a])
    requires q in GroupPairs(h, now, eligible, Keys(eligible)[b])
    ensures InBookOrder(eligible, p, q)
  {
    var keys := Keys(eligible);
    KeysMeaning(eligible);
    GroupPairMeaning(h, now, eligible, keys[a], p);
    GroupPairMeaning(h, now, eligible, keys[b], q);
    var i, j := KeysInOrder(eligible, a, b);
    assert SameTerms(eligible[i], p.0);
    forall x | 0 <= x < |eligible| && SameTerms(eligible[x], q.0)
      ensures i < x
    {
      assert KeyOf(eligible[x]) == keys[b];
    }
  }

  ghost predicate AllInOrder(eligible: seq<BookOrder>, ps: seq<Proposal>) {
    forall i, j :: 0 <= i < j < |ps| ==> InBookOrder(eligible, ps[i], ps[j])
  }

  lemma ConcatInOrder(eligible: seq<BookOrder>, ps: seq<Proposal>, qs: seq<Proposal>)
    requires AllInOrder(eligible, ps) && AllInOrder(eligible, qs)
    requires forall p, q :: p in ps && q in qs ==> InBookOrder(eligible, p, q)
    ensures AllInOrder(eligible, ps + qs)
  {
    var all := ps + qs;
    forall i, j | 0 <= i < j < |all|
      ensures InBookOrder(eligible, all[i], all[j])
    {
      if i < |ps| <= j {
        assert all[i] in ps && all[j] in qs;
      } else if i >= |ps| {
        assert all[i] == qs[i - |ps|] && all[j] == qs[j - |ps|];
      }
    }
  }

  lemma GroupIsInOrder(h: Health, now: int, eligible: seq<BookOrder>, k: Key)
    requires UniqueIds(eligible)
    ensures AllInOrder(eligible, GroupPairs(h, now, eligible, k))
  {
    var group := GroupPairs(h, now, eligible, k);
    forall i, j | 0 <= i < j < |group|
      ensures InBookOrder(eligible, group[i], group[j])
    {
      GroupInOrder(h, now, eligible, k, i, j);
    }
  }

  // Groups that are in order by themselves and among each other are in order one after the other.
  lemma {:induction false} FlattenInOrder(eligible: seq<BookOrder>, keys: seq<Key>, f: Key -> seq<Proposal>)
    requires forall k :: k in keys ==> AllInOrder(eligible, f(k))
    requires forall a, b, p, q ::
      0 <= a < b < |keys| && p in f(keys[a]) && q in f(keys[b]) ==> InBookOrder(eligible, p, q)
    ensures AllInOrder(eligible, Flatten(keys, f))
  {
    if keys != [] {
      var n := |keys| - 1;
      FlattenInOrder(eligible, keys[..n], f);
      forall p, q | p in Flatten(keys[..n], f) && q in f(keys[n])
        ensures InBookOrder(eligible, p, q)
      {
        FlattenMeaning(keys[..n], f, p);
        var k :| k in keys[..n] && p in f(k);
        var a :| 0 <= a < n && keys[..n][a] == k;
        assert p in f(keys[a]);
      }
      ConcatInOrder(eligible, Flatten(keys[..n], f), f(keys[n]));
    }
  }

  // Proposals come best first: in the sequence in which the book meets their terms, and for equal terms in
  // the sequence of their buys.
  lemma ProposalsInBookOrder(h: Health, now: int, orders: seq<BookOrder>, i: nat, j: nat)
    requires UniqueIds(orders) && i < j < |Proposals(h, now, orders)|
    ensures var ps := Proposals(h, now, orders);
      InBookOrder(Eligible(h, now, Book(orders)), ps[i], ps[j])
  {
    var eligible := Eligible(h, now, Book(orders));
    BookKeepsOrders(orders);
    EligibleMeaning(h, now, Book(orders));
    var keys, f := Keys(eligible), PairsOf(h, now, eligible);
    forall k | k in keys
      ensures AllInOrder(eligible, f(k))
    {
      GroupIsInOrder(h, now, eligible, k);
    }
    forall a, b, p, q | 0 <= a < b < |keys| && p in f(keys[a]) && q in f(keys[b])
      ensures InBookOrder(eligible, p, q)
    {
      GroupsInOrder(h, now, eligible, a, b, p, q);
    }
    FlattenInOrder(eligible, keys, f);
  }
}
